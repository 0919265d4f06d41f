/** A stream below the 32-bit length limit whose bucket counters nevertheless wrap. */
module TlshWrap {
  import opened Pearson
  import opened TlshStream

  const HOT := 147

  /** The table entries that decide the two windows of the alternating stream. */
  predicate HotTable(v: Table) {
    && v[2] == 49 && v[23] == 80 && v[26] == 24 && v[32] == 110 && v[63] == 235
    && v[78] == 135 && v[90] == 17 && v[97] == 56 && v[101] == 133 && v[103] == 100
    && v[118] == 201 && v[123] == 32 && v[127] == 10 && v[138] == 251 && v[152] == 55
    && v[155] == 220 && v[168] == 105 && v[173] == 160 && v[176] == 118 && v[205] == 205
    && v[211] == 147 && v[228] == 41 && v[237] == 47 && v[240] == 51 && v[246] == 93
  }

  function Alternating(n: nat): (s: seq<bv8>)
    ensures |s| == n
    ensures forall i :: 0 <= i < n ==> s[i] == if i % 2 == 0 then 252 else 86
  {
    seq(n, i => if i % 2 == 0 then 252 else 86)
  }

  /** The two windows of the alternation. */
  predicate IsPhase(w: seq<bv8>) {
    w == [252, 86, 252, 86, 252] || w == [86, 252, 86, 252, 86]
  }

  /** Both phases of the alternation hit the hot bucket twice. */
  lemma {:induction false} HotWindow(v: Table, w: seq<bv8>)
    requires HotTable(v)
    requires IsPhase(w)
    ensures var r := SixHits(v, w);
            r[1] == HOT && r[3] == HOT && r[0] != HOT && r[2] != HOT && r[4] != HOT && r[5] != HOT
  {
  }

  lemma {:induction false} TwoOfSix(r: seq<nat>)
    requires |r| == 6
    requires r[1] == HOT && r[3] == HOT && r[0] != HOT && r[2] != HOT && r[4] != HOT && r[5] != HOT
    ensures multiset(r)[HOT] == 2
  {
    assert r == [r[0], r[1], r[2], r[3], r[4], r[5]];
  }

  lemma {:induction false} AlternatingEnd(n: nat)
    requires n >= 5
    ensures Alternating(n)[..n - 1] == Alternating(n - 1)
    ensures IsPhase(Alternating(n)[n - 5..])
  {
    var w := Alternating(n)[n - 5..];
    assert w == [w[0], w[1], w[2], w[3], w[4]];
  }

  /** Two more hits of the hot bucket for one more byte. */
  lemma {:induction false} HotJoin(h: seq<nat>, r: seq<nat>, all: seq<nat>, count: nat)
    requires all == h + r && multiset(h)[HOT] == count && multiset(r)[HOT] == 2
    ensures multiset(all)[HOT] == count + 2
  {
  }

  lemma {:induction false} HitsGrow(v: Table, n: nat)
    requires n >= 5
    ensures HitsOf(v, Alternating(n)) == HitsOf(v, Alternating(n - 1)) + SixHits(v, Alternating(n)[n - 5..])
  {
    AlternatingEnd(n);
  }

  /** In both phases the window hits the hot bucket twice. */
  ghost predicate HotPhases(v: Table) {
    forall w :: IsPhase(w) ==> multiset(SixHits(v, w))[HOT] == 2
  }

  lemma {:induction false} TableIsHot(v: Table)
    requires HotTable(v)
    ensures HotPhases(v)
  {
    forall w | IsPhase(w) ensures multiset(SixHits(v, w))[HOT] == 2 {
      HotWindow(v, w);
      TwoOfSix(SixHits(v, w));
    }
  }

  lemma {:induction false} HotSix(v: Table, n: nat)
    requires HotPhases(v) && n >= 5
    ensures multiset(SixHits(v, Alternating(n)[n - 5..]))[HOT] == 2
  {
    AlternatingEnd(n);
  }

  /** The hits of the hot bucket among the first n bytes. */
  function HotHits(v: Table, n: nat): nat {
    multiset(HitsOf(v, Alternating(n)))[HOT]
  }

  lemma {:induction false} HotStep(v: Table, n: nat)
    requires n >= 5 && multiset(SixHits(v, Alternating(n)[n - 5..]))[HOT] == 2
    requires HotHits(v, n - 1) == 2 * (n - 5)
    ensures HotHits(v, n) == 2 * (n - 4)
  {
    var h, r := HitsOf(v, Alternating(n - 1)), SixHits(v, Alternating(n)[n - 5..]);
    HitsGrow(v, n);
    HotJoin(h, r, HitsOf(v, Alternating(n)), 2 * (n - 5));
  }

  lemma {:induction false} NoHits(v: Table, n: nat)
    requires n < 5
    ensures HotHits(v, n) == 0
  {
  }

  lemma {:induction false} HotCount(v: Table, n: nat)
    requires HotPhases(v) && n >= 4
    ensures HotHits(v, n) == 2 * (n - 4)
  {
    if n == 4 {
      NoHits(v, n);
    } else {
      HotCount(v, n - 1);
      HotSix(v, n);
      HotStep(v, n);
    }
  }

  /** 2^31 + 4 alternating bytes fit the 32-bit length, but their counters do not add up
      to six per window: one counter has wrapped. */
  lemma {:induction false} CounterWrapsBelowLengthLimit(v: Table, bucket: seq<nat>, n: nat)
    requires HotPhases(v) && n == 0x8000_0004
    requires Counts(v, bucket, Alternating(n))
    ensures n < U32 && Sum(bucket) != 6 * (n - 4)
  {
    HotCount(v, n);
    BucketsConserve(v, bucket, Alternating(n));
    assert Tally(HitsOf(v, Alternating(n)))[HOT] == 2 * (n - 4);
  }
}
