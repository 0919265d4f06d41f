/** The streaming half of the TLSH engine: a 5-byte sliding window that feeds a checksum and
    256 wrapping 32-bit counters, specified by whole-sequence functions of the bytes fed. */
module TlshStream {
  import opened Pearson
  import Seqs

  const BUCKET_COUNT := 256
  const SLIDING_WND_SIZE := 5
  const U32 := 0x1_0000_0000

  /** The six buckets hit when w[4] arrives after w[3], w[2], w[1] and w[0]. */
  function SixHits(v: Table, w: seq<bv8>): (r: seq<nat>)
    requires |w| == SLIDING_WND_SIZE
    ensures |r| == 6 && forall k :: 0 <= k < 6 ==> r[k] < BUCKET_COUNT
  {
    [ FastBMapping(v, 49, w[4], w[3], w[2]) as int,
      FastBMapping(v, 12, w[4], w[3], w[1]) as int,
      FastBMapping(v, 178, w[4], w[2], w[1]) as int,
      FastBMapping(v, 166, w[4], w[2], w[0]) as int,
      FastBMapping(v, 84, w[4], w[3], w[0]) as int,
      FastBMapping(v, 230, w[4], w[1], w[0]) as int ]
  }

  /** Every bucket hit of the whole sequence, in order: six for each full window. */
  function HitsOf(v: Table, data: seq<bv8>): (h: seq<nat>)
    ensures forall k :: 0 <= k < |h| ==> h[k] < BUCKET_COUNT
    ensures |h| == 6 * if |data| < 4 then 0 else |data| - 4
  {
    var n := |data|;
    if n < SLIDING_WND_SIZE then [] else HitsOf(v, data[..n - 1]) + SixHits(v, data[n - 5..])
  }

  function ChecksumOf(v: Table, data: seq<bv8>): bv8 {
    var n := |data|;
    if n < SLIDING_WND_SIZE then 0
    else FastBMapping(v, 1, data[n - 1], data[n - 2], ChecksumOf(v, data[..n - 1]))
  }

  /** What slot k of the sliding window holds: the last byte fed at a position congruent
      to k, or the initial zero. */
  function WindowSlot(data: seq<bv8>, k: nat): bv8 {
    if data == [] then 0
    else if (|data| - 1) % SLIDING_WND_SIZE == k then data[|data| - 1]
    else WindowSlot(data[..|data| - 1], k)
  }

  /** The byte fed d steps before the newest is d slots behind it in the ring. */
  lemma {:induction false} WindowHoldsRecent(data: seq<bv8>, d: nat)
    requires d < SLIDING_WND_SIZE && d < |data|
    ensures WindowSlot(data, (|data| - 1 - d) % SLIDING_WND_SIZE) == data[|data| - 1 - d]
  {
    if d > 0 {
      WindowHoldsRecent(data[..|data| - 1], d - 1);
    }
  }

  /** The counters hold the hit counts of data, each reduced to 32 bits. */
  ghost predicate Counts(v: Table, bucket: seq<nat>, data: seq<bv8>) {
    CountsHits(bucket, HitsOf(v, data))
  }

  ghost predicate CountsHits(bucket: seq<nat>, h: seq<nat>) {
    |bucket| == BUCKET_COUNT && forall k :: 0 <= k < BUCKET_COUNT ==> bucket[k] == multiset(h)[k] % U32
  }

  lemma {:induction false} OneMoreHit(bucket: seq<nat>, h: seq<nat>, r: nat)
    requires CountsHits(bucket, h) && r < BUCKET_COUNT
    ensures CountsHits(bucket[r := (bucket[r] + 1) % U32], h + [r])
  {
    assert multiset(h + [r]) == multiset(h) + multiset{r};
  }

  method Bump(bucket: array<nat>, k: nat)
    requires k < bucket.Length
    modifies bucket
    ensures bucket[..] == old(bucket[..])[k := (old(bucket[k]) + 1) % U32]
  {
    bucket[k] := (bucket[k] + 1) % U32;
  }

  lemma {:induction false} NextHit(h: seq<nat>, r: seq<nat>, i: nat)
    requires i < |r|
    ensures h + r[..i] + [r[i]] == h + r[..i + 1]
  {
  }

  /** Bumps the wrapping counters for a list of hits. */
  method HitAll(bucket: array<nat>, r: seq<nat>, ghost h: seq<nat>)
    requires forall k :: 0 <= k < |r| ==> r[k] < BUCKET_COUNT
    requires CountsHits(bucket[..], h)
    modifies bucket
    ensures CountsHits(bucket[..], h + r)
  {
    assert h + r[..0] == h;
    for i := 0 to |r|
      invariant CountsHits(bucket[..], h + r[..i])
    {
      OneMoreHit(bucket[..], h + r[..i], r[i]);
      NextHit(h, r, i);
      Bump(bucket, r[i]);
    }
    assert r[..|r|] == r;
  }

  /** The ring view of the newest five bytes, addressed by the cursor. */
  ghost predicate HoldsWindow(w: seq<bv8>, data: seq<bv8>) {
    |w| == SLIDING_WND_SIZE && forall k :: 0 <= k < SLIDING_WND_SIZE ==> w[k] == WindowSlot(data, k)
  }

  lemma {:induction false} WindowPush(w: seq<bv8>, data: seq<bv8>, x: bv8, j: nat)
    requires HoldsWindow(w, data) && j == |data| % SLIDING_WND_SIZE
    ensures HoldsWindow(w[j := x], data + [x])
  {
    assert (data + [x])[..|data|] == data;
  }

  lemma {:induction false} RemainderIs(q: nat, r: nat)
    requires r < SLIDING_WND_SIZE
    ensures (SLIDING_WND_SIZE * q + r) % SLIDING_WND_SIZE == r
  {
  }

  /** Stepping back in the ring is stepping back in the stream. */
  lemma {:induction false} StepBack(n: nat, j: nat, d: nat)
    requires d < SLIDING_WND_SIZE <= n && j == (n - 1) % SLIDING_WND_SIZE
    ensures (j + SLIDING_WND_SIZE - d) % SLIDING_WND_SIZE == (n - 1 - d) % SLIDING_WND_SIZE
  {
    var q := (n - 1) / SLIDING_WND_SIZE;
    assert n - 1 == SLIDING_WND_SIZE * q + j;
    if d <= j {
      RemainderIs(q, j - d);
      RemainderIs(1, j - d);
    } else {
      RemainderIs(q - 1, j + SLIDING_WND_SIZE - d);
      RemainderIs(0, j + SLIDING_WND_SIZE - d);
    }
  }

  lemma {:induction false} WindowBehindCursor(w: seq<bv8>, data: seq<bv8>, j: nat, d: nat)
    requires HoldsWindow(w, data) && |data| >= SLIDING_WND_SIZE && d < SLIDING_WND_SIZE
    requires j == (|data| - 1) % SLIDING_WND_SIZE
    ensures w[(j + SLIDING_WND_SIZE - d) % SLIDING_WND_SIZE] == data[|data| - 1 - d]
  {
    StepBack(|data|, j, d);
    WindowHoldsRecent(data, d);
  }

  /** Reading the ring backwards from the cursor gives the last five bytes, oldest first. */
  method ReadBack(sw: array<bv8>, j: nat, ghost data: seq<bv8>) returns (w: seq<bv8>)
    requires sw.Length == SLIDING_WND_SIZE && HoldsWindow(sw[..], data)
    requires |data| >= SLIDING_WND_SIZE && j == (|data| - 1) % SLIDING_WND_SIZE
    ensures w == data[|data| - 5..]
  {
    var j1 := (j + SLIDING_WND_SIZE - 1) % SLIDING_WND_SIZE;
    var j2 := (j + SLIDING_WND_SIZE - 2) % SLIDING_WND_SIZE;
    var j3 := (j + SLIDING_WND_SIZE - 3) % SLIDING_WND_SIZE;
    var j4 := (j + SLIDING_WND_SIZE - 4) % SLIDING_WND_SIZE;
    WindowBehindCursor(sw[..], data, j, 0);
    WindowBehindCursor(sw[..], data, j, 1);
    WindowBehindCursor(sw[..], data, j, 2);
    WindowBehindCursor(sw[..], data, j, 3);
    WindowBehindCursor(sw[..], data, j, 4);
    w := [sw[j4], sw[j3], sw[j2], sw[j1], sw[j]];
  }

  /** One byte through the window, the checksum and the six counters. */
  method Mix(v: Table, bucket: array<nat>, sw: array<bv8>, j: nat, checksum: bv8, ghost data: seq<bv8>)
    returns (sum: bv8)
    requires bucket.Length == BUCKET_COUNT && sw.Length == SLIDING_WND_SIZE
    requires |data| >= SLIDING_WND_SIZE && j == (|data| - 1) % SLIDING_WND_SIZE
    requires HoldsWindow(sw[..], data)
    requires checksum == ChecksumOf(v, data[..|data| - 1])
    requires Counts(v, bucket[..], data[..|data| - 1])
    modifies bucket
    ensures sum == ChecksumOf(v, data)
    ensures Counts(v, bucket[..], data)
  {
    var w := ReadBack(sw, j, data);
    sum := FastBMapping(v, 1, w[4], w[3], checksum);
    HitAll(bucket, SixHits(v, w), HitsOf(v, data[..|data| - 1]));
  }

  /** Nothing is counted before the first full window. */
  lemma {:induction false} NothingCounted(v: Table, data: seq<bv8>)
    requires |data| < SLIDING_WND_SIZE
    ensures HitsOf(v, data) == [] && ChecksumOf(v, data) == 0
  {
  }

  /** Counters, window and checksum are those of data. */
  ghost predicate Tracks(v: Table, bucket: seq<nat>, w: seq<bv8>, checksum: bv8, data: seq<bv8>) {
    Counts(v, bucket, data) && HoldsWindow(w, data) && checksum == ChecksumOf(v, data)
  }

  /** One byte. */
  method Push(v: Table, bucket: array<nat>, sw: array<bv8>, checksum: bv8, x: bv8, fedLen: nat, j: nat,
              ghost data: seq<bv8>) returns (sum: bv8)
    requires fedLen == |data| && j == fedLen % SLIDING_WND_SIZE
    requires Tracks(v, bucket[..], sw[..], checksum, data)
    modifies bucket, sw
    ensures Tracks(v, bucket[..], sw[..], sum, data + [x])
  {
    ghost var after := data + [x];
    assert after[..|after| - 1] == data;
    ghost var slots := sw[..][j := x];
    WindowPush(sw[..], data, x, j);
    sw[j] := x;
    assert sw[..] == slots;
    if fedLen >= SLIDING_WND_SIZE - 1 {
      sum := Mix(v, bucket, sw, j, checksum, after);
    } else {
      NothingCounted(v, data);
      NothingCounted(v, after);
      sum := checksum;
    }
  }

  lemma {:induction false} CursorStep(n: nat, j: nat)
    requires j == n % SLIDING_WND_SIZE
    ensures (j + 1) % SLIDING_WND_SIZE == (n + 1) % SLIDING_WND_SIZE
  {
  }

  /** A chunk, entered with the window cursor derived from the length fed so far. */
  method PushAll(v: Table, bucket: array<nat>, sw: array<bv8>, checksum: bv8, chunk: seq<bv8>, dataLen: nat,
                 ghost data: seq<bv8>) returns (sum: bv8)
    requires dataLen == |data|
    requires Tracks(v, bucket[..], sw[..], checksum, data)
    modifies bucket, sw
    ensures Tracks(v, bucket[..], sw[..], sum, data + chunk)
  {
    sum := checksum;
    var fedLen := dataLen;
    var j := dataLen % SLIDING_WND_SIZE;
    Seqs.PrefixEnds(data, chunk);
    for i := 0 to |chunk|
      invariant fedLen == |data| + i && j == fedLen % SLIDING_WND_SIZE
      invariant Tracks(v, bucket[..], sw[..], sum, data + chunk[..i])
    {
      sum := Push(v, bucket, sw, sum, chunk[i], fedLen, j, data + chunk[..i]);
      Seqs.PrefixSnoc(data, chunk, i);
      CursorStep(fedLen, j);
      fedLen := fedLen + 1;
      j := (j + 1) % SLIDING_WND_SIZE;
    }
  }

  /** The hash context. `fed` is every byte accepted so far. */
  class Context {
    const v: Table
    var bucket: array?<nat>
    var window: array<bv8>
    var dataLen: nat
    var checksum: bv8
    var allocFailed: bool
    ghost var fed: seq<bv8>

    ghost predicate Valid()
      reads this, window, bucket
    {
      && |fed| < U32 && dataLen == |fed|
      && HoldsWindow(window[..], fed)
      && checksum == ChecksumOf(v, fed)
      && (bucket == null ==> fed == [])
      && (bucket != null ==> Counts(v, bucket[..], fed))
    }

    constructor (table: Table)
      ensures v == table && Valid() && fresh(window) && bucket == null
      ensures fed == [] && !allocFailed
    {
      v := table;
      bucket, dataLen, checksum, allocFailed, fed := null, 0, 0, false, [];
      window := new bv8[SLIDING_WND_SIZE](_ => 0);
    }

    /** Feeds a chunk. `allocOk` is the answer of the allocator, consulted only before the
        first successful feed; one refusal makes every later feed a no-op. */
    method Update(data: seq<bv8>, allocOk: bool)
      requires Valid() && |fed| + |data| < U32
      modifies this, window, bucket
      ensures Valid()
      ensures window == old(window) && (bucket != old(bucket) ==> fresh(bucket))
      ensures allocFailed == (old(allocFailed) || (old(bucket) == null && !allocOk))
      ensures fed == if allocFailed then old(fed) else old(fed) + data
      ensures if allocFailed then bucket == old(bucket) else bucket != null
    {
      if allocFailed {
        return;
      }
      if bucket == null {
        if !allocOk {
          allocFailed := true;
          return;
        }
        bucket := new nat[BUCKET_COUNT](_ => 0);
        NothingCounted(v, fed);
      }
      checksum := PushAll(v, bucket, window, checksum, data, dataLen, fed);
      fed := fed + data;
      dataLen := dataLen + |data|;
    }
  }

  /** Chunking is irrelevant: however the bytes were split into feeds, contexts that have
      accepted the same bytes agree on counters, window, checksum and length. */
  lemma {:induction false} ChunkingIrrelevant(c: Context, d: Context)
    requires c.Valid() && d.Valid() && c.v == d.v && c.fed == d.fed
    requires c.bucket != null && d.bucket != null
    ensures c.bucket[..] == d.bucket[..] && c.window[..] == d.window[..]
    ensures c.checksum == d.checksum && c.dataLen == d.dataLen
  {
  }

  // ----- conservation of hits

  function Sum(s: seq<nat>): nat {
    if s == [] then 0 else s[0] + Sum(s[1..])
  }

  lemma {:induction false} SumBump(s: seq<nat>, k: nat)
    requires k < |s|
    ensures Sum(s[k := s[k] + 1]) == Sum(s) + 1
  {
    if k > 0 {
      SumBump(s[1..], k - 1);
      assert s[k := s[k] + 1][1..] == s[1..][k - 1 := s[k] + 1];
    }
  }

  lemma {:induction false} SumZeros(s: seq<nat>)
    requires forall k :: 0 <= k < |s| ==> s[k] == 0
    ensures Sum(s) == 0
  {
    if s != [] {
      SumZeros(s[1..]);
    }
  }

  function Tally(h: seq<nat>): (c: seq<nat>)
    ensures |c| == BUCKET_COUNT && forall k :: 0 <= k < BUCKET_COUNT ==> c[k] == multiset(h)[k]
  {
    seq(BUCKET_COUNT, k => multiset(h)[k])
  }

  /** Every hit lands in exactly one bucket. */
  lemma {:induction false} TallyConserves(h: seq<nat>)
    requires forall k :: 0 <= k < |h| ==> h[k] < BUCKET_COUNT
    ensures Sum(Tally(h)) == |h|
  {
    if h == [] {
      SumZeros(Tally(h));
    } else {
      var p, r := h[..|h| - 1], h[|h| - 1];
      TallyConserves(p);
      assert h == p + [r];
      assert multiset(h) == multiset(p) + multiset{r};
      assert Tally(h) == Tally(p)[r := Tally(p)[r] + 1];
      SumBump(Tally(p), r);
    }
  }

  lemma {:induction false} Quotient(x: nat)
    ensures x == x % U32 + U32 * (x / U32)
  {
  }

  lemma {:induction false} MultipleRemainder(q: nat)
    ensures U32 * q % U32 == 0
  {
  }

  /** Wrapping takes a multiple of 2^32 off the sum. */
  lemma {:induction false} SumWrapped(s: seq<nat>, w: seq<nat>) returns (q: nat)
    requires |w| == |s| && forall k :: 0 <= k < |s| ==> w[k] == s[k] % U32
    ensures Sum(s) == Sum(w) + U32 * q
  {
    if s == [] {
      q := 0;
    } else {
      var rest := SumWrapped(s[1..], w[1..]);
      Quotient(s[0]);
      q := s[0] / U32 + rest;
    }
  }

  lemma {:induction false} SumWrappedExact(s: seq<nat>, w: seq<nat>)
    requires |w| == |s| && forall k :: 0 <= k < |s| ==> w[k] <= s[k] && (w[k] == s[k] <==> s[k] < U32)
    ensures Sum(w) <= Sum(s)
    ensures Sum(w) == Sum(s) <==> forall k :: 0 <= k < |s| ==> s[k] < U32
  {
    if s != [] {
      SumWrappedExact(s[1..], w[1..]);
      assert (forall k :: 0 <= k < |s| ==> s[k] < U32) <==>
             s[0] < U32 && forall k :: 0 <= k < |s[1..]| ==> s[1..][k] < U32;
    }
  }

  lemma {:induction false} ElementAtMostSum(s: seq<nat>, k: nat)
    requires k < |s|
    ensures s[k] <= Sum(s)
  {
    if k > 0 {
      ElementAtMostSum(s[1..], k - 1);
    }
  }

  /** No bucket is hit 2^32 times or more. */
  ghost predicate NoCounterWraps(h: seq<nat>) {
    forall r :: 0 <= r < BUCKET_COUNT ==> Tally(h)[r] < U32
  }

  lemma {:induction false} HitsConserve(bucket: seq<nat>, h: seq<nat>, total: nat)
    requires CountsHits(bucket, h) && |h| == total
    requires forall k :: 0 <= k < |h| ==> h[k] < BUCKET_COUNT
    ensures Sum(bucket) <= total && (total - Sum(bucket)) % U32 == 0
    ensures Sum(bucket) == total <==> NoCounterWraps(h)
    ensures total < U32 ==> Sum(bucket) == total
  {
    var t := Tally(h);
    TallyConserves(h);
    var q := SumWrapped(t, bucket);
    MultipleRemainder(q);
    SumWrappedExact(t, bucket);
    forall r | 0 <= r < BUCKET_COUNT ensures t[r] <= |h| {
      ElementAtMostSum(t, r);
    }
  }

  /** Six hits for every full window of n bytes. */
  function Total(n: nat): nat {
    6 * if n < 4 then 0 else n - 4
  }

  /** The counters sum to six per full window, up to multiples of 2^32 lost in wrapping;
      nothing is lost exactly when no bucket was hit 2^32 times, which in particular holds
      while the six-fold total itself stays below 2^32. */
  lemma {:induction false} BucketsConserve(v: Table, bucket: seq<nat>, data: seq<bv8>)
    requires Counts(v, bucket, data)
    ensures Sum(bucket) <= Total(|data|) && (Total(|data|) - Sum(bucket)) % U32 == 0
    ensures Sum(bucket) == Total(|data|) <==> NoCounterWraps(HitsOf(v, data))
    ensures Total(|data|) < U32 ==> Sum(bucket) == Total(|data|)
  {
    HitsConserve(bucket, HitsOf(v, data), Total(|data|));
  }
}
