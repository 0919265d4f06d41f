/** Small facts about collections that several modules need. */
module Seqs {

  function Min(a: nat, b: nat): nat {
    if a < b then a else b
  }

  lemma {:induction false} PrefixSnoc<T>(a: seq<T>, s: seq<T>, i: nat)
    requires i < |s|
    ensures a + s[..i] + [s[i]] == a + s[..i + 1]
  {
  }

  lemma {:induction false} PrefixEnds<T>(a: seq<T>, s: seq<T>)
    ensures a + s[..0] == a && a + s[..|s|] == a + s
  {
    assert s[..|s|] == s;
  }

  lemma {:induction false} SplitAt<T>(a: seq<T>, s: seq<T>, i: nat)
    requires i <= |s|
    ensures a + s[..i] + s[i..] == a + s
  {
  }

  lemma {:induction false} Assoc<T>(a: seq<T>, b: seq<T>, c: seq<T>)
    ensures a + b + c == a + (b + c)
  {
  }

  function Flatten<T>(s: seq<seq<T>>): seq<T> {
    if s == [] then [] else Flatten(s[..|s| - 1]) + s[|s| - 1]
  }

  /** What grows piece by piece is what it was and then the pieces. */
  lemma {:induction false} Accumulates<T>(values: seq<seq<T>>, pieces: seq<seq<T>>, n: nat)
    requires |values| == |pieces| + 1 && n <= |pieces|
    requires forall k :: 0 <= k < |pieces| ==> values[k + 1] == values[k] + pieces[k]
    ensures values[n] == values[0] + Flatten(pieces[..n])
  {
    if n > 0 {
      Accumulates(values, pieces, n - 1);
      assert values[n - 1 + 1] == values[n - 1] + pieces[n - 1];
      assert pieces[..n][..n - 1] == pieces[..n - 1];
      Assoc(values[0], Flatten(pieces[..n - 1]), pieces[n - 1]);
    }
  }

  lemma {:induction false} SubsetSize<T>(a: set<T>, b: set<T>)
    requires a <= b
    ensures |a| <= |b| && (|a| == |b| <==> b <= a)
  {
    assert b == a + (b - a);
    assert |b| == |a| + |b - a|;
  }

  lemma {:induction false} PutSize<K, V>(m: map<K, V>, k: K, v: V)
    ensures |m[k := v]| == |m| + (if k in m then 0 else 1)
  {
    assert m[k := v].Keys == m.Keys + {k};
    assert |m[k := v]| == |m[k := v].Keys| && |m| == |m.Keys|;
  }

  /** A key added to the left side of a merge only matters where the right side lacks it. */
  lemma {:induction false} MergeKey<K, V>(m: map<K, V>, k: K, v: V, c: map<K, V>)
    ensures m[k := v] + c == m + (if k in c then c else c[k := v])
  {
  }

  lemma {:induction false} MergeKnown<K, V>(m: map<K, V>, k: K, c: map<K, V>)
    requires k in c
    ensures m - {k} + c == m + c
  {
  }

  lemma {:induction false} MergeNew<K, V>(m: map<K, V>, k: K, c: map<K, V>)
    requires k in m && k !in c
    ensures m - {k} + c[k := m[k]] == m + c == (m - {k} + c)[k := m[k]]
  {
  }
}
