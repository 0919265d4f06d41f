/** Order statistics of a sequence, by counting: the vocabulary in which the quartile
    search and the digest's bucket codes are specified. */
module Ranks {

  ghost predicate IsSorted(s: seq<nat>) {
    forall i, j :: 0 <= i < j < |s| ==> s[i] <= s[j]
  }

  function Insert(x: nat, s: seq<nat>): (r: seq<nat>)
    requires IsSorted(s)
    ensures IsSorted(r) && |r| == |s| + 1
    ensures r[0] == if s == [] || x <= s[0] then x else s[0]
  {
    if s == [] || x <= s[0] then [x] + s else [s[0]] + Insert(x, s[1..])
  }

  lemma {:induction false} FirstElement(x: nat, s: seq<nat>)
    ensures multiset([x] + s) == multiset{x} + multiset(s)
  {
  }

  lemma {:induction false} Regroup(a: multiset<nat>, b: multiset<nat>, c: multiset<nat>)
    ensures a + b == b + a && a + (b + c) == a + b + c
  {
  }

  lemma {:induction false} InsertLater(x: nat, y: nat, rest: seq<nat>, inserted: seq<nat>)
    requires multiset(inserted) == multiset(rest) + multiset{x}
    ensures multiset([y] + inserted) == multiset([y] + rest) + multiset{x}
  {
    FirstElement(y, rest);
    FirstElement(y, inserted);
    Regroup(multiset{y}, multiset(rest), multiset{x});
  }

  lemma {:induction false} InsertElements(x: nat, s: seq<nat>)
    requires IsSorted(s)
    ensures multiset(Insert(x, s)) == multiset(s) + multiset{x}
  {
    if s == [] || x <= s[0] {
      FirstElement(x, s);
      Regroup(multiset{x}, multiset(s), multiset{});
    } else {
      InsertElements(x, s[1..]);
      InsertLater(x, s[0], s[1..], Insert(x, s[1..]));
      assert s == [s[0]] + s[1..];
    }
  }

  /** The ascending rearrangement of s. */
  function Sorted(s: seq<nat>): (r: seq<nat>)
    ensures IsSorted(r) && |r| == |s|
    ensures multiset(r) == multiset(s)
  {
    if s == [] then []
    else
      assert s == [s[0]] + s[1..];
      InsertElements(s[0], Sorted(s[1..]));
      Insert(s[0], Sorted(s[1..]))
  }

  /** How many elements of s are strictly below v. */
  function CountBelow(s: seq<nat>, v: int): (c: nat)
    ensures c <= |s|
  {
    if s == [] then 0 else (if s[0] < v then 1 else 0) + CountBelow(s[1..], v)
  }

  lemma {:induction false} CountBelowConcat(a: seq<nat>, b: seq<nat>, v: int)
    ensures CountBelow(a + b, v) == CountBelow(a, v) + CountBelow(b, v)
  {
    if a == [] {
      assert a + b == b;
    } else {
      assert (a + b)[1..] == a[1..] + b;
      CountBelowConcat(a[1..], b, v);
    }
  }

  lemma {:induction false} CountBelowAll(s: seq<nat>, v: int)
    requires forall i :: 0 <= i < |s| ==> s[i] < v
    ensures CountBelow(s, v) == |s|
  {
    if s != [] {
      CountBelowAll(s[1..], v);
    }
  }

  lemma {:induction false} CountBelowNone(s: seq<nat>, v: int)
    requires forall i :: 0 <= i < |s| ==> v <= s[i]
    ensures CountBelow(s, v) == 0
  {
    if s != [] {
      CountBelowNone(s[1..], v);
    }
  }

  function Without(t: seq<nat>, k: nat): (rest: seq<nat>)
    requires k < |t|
  {
    t[..k] + t[k + 1..]
  }

  lemma {:induction false} WithoutElements(t: seq<nat>, k: nat)
    requires k < |t|
    ensures multiset(Without(t, k)) == multiset(t) - multiset{t[k]}
  {
    assert t == t[..k] + [t[k]] + t[k + 1..];
  }

  lemma {:induction false} WithoutCount(t: seq<nat>, k: nat, v: int)
    requires k < |t|
    ensures CountBelow(t, v) == CountBelow(Without(t, k), v) + if t[k] < v then 1 else 0
  {
    CountBelowConcat(t[..k], t[k + 1..], v);
    assert t == t[..k] + t[k..];
    CountBelowConcat(t[..k], t[k..], v);
    assert t[k..][1..] == t[k + 1..];
  }

  /** Counting does not depend on the order of the elements. */
  lemma {:induction false} CountBelowPermutation(s: seq<nat>, t: seq<nat>, v: int)
    requires multiset(s) == multiset(t)
    ensures CountBelow(s, v) == CountBelow(t, v)
  {
    if s == [] {
      assert |multiset(s)| == 0 == |t|;
    } else {
      assert s[0] in multiset(t);
      var k :| 0 <= k < |t| && t[k] == s[0];
      WithoutElements(s, 0);
      WithoutElements(t, k);
      WithoutCount(t, k, v);
      assert Without(s, 0) == s[1..];
      CountBelowPermutation(s[1..], Without(t, k), v);
    }
  }

  lemma {:induction false} SortedRankAbove(t: seq<nat>, p: nat, v: int)
    requires IsSorted(t) && p < |t| && t[p] < v
    ensures p < CountBelow(t, v)
  {
    CountBelowConcat(t[..p + 1], t[p + 1..], v);
    CountBelowAll(t[..p + 1], v);
    assert t == t[..p + 1] + t[p + 1..];
  }

  lemma {:induction false} SortedRankBelow(t: seq<nat>, p: nat, v: int)
    requires IsSorted(t) && p < |t| && v <= t[p]
    ensures CountBelow(t, v) <= p
  {
    CountBelowConcat(t[..p], t[p..], v);
    CountBelowNone(t[p..], v);
    assert t == t[..p] + t[p..];
  }

  /** The order statistic of s at p is below v exactly when more than p elements of s are. */
  lemma {:induction false} OrderStatisticRank(s: seq<nat>, p: nat, v: int)
    requires p < |s|
    ensures Sorted(s)[p] < v <==> p < CountBelow(s, v)
  {
    var t := Sorted(s);
    CountBelowPermutation(s, t, v);
    if t[p] < v {
      SortedRankAbove(t, p, v);
    } else {
      SortedRankBelow(t, p, v);
    }
  }

  /** Everything left of p is at most s[p] and everything right of p at least s[p]. */
  ghost predicate IsPivot(s: seq<nat>, p: int) {
    && 0 <= p < |s|
    && (forall i :: 0 <= i < p ==> s[i] <= s[p])
    && (forall i :: p < i < |s| ==> s[p] <= s[i])
  }

  lemma {:induction false} PivotRank(t: seq<nat>, p: nat)
    requires IsPivot(t, p)
    ensures CountBelow(t, t[p]) <= p < CountBelow(t, t[p] + 1)
  {
    var v := t[p];
    CountBelowConcat(t[..p], t[p..], v);
    CountBelowNone(t[p..], v);
    assert t == t[..p] + t[p..];
    CountBelowConcat(t[..p + 1], t[p + 1..], v + 1);
    CountBelowAll(t[..p + 1], v + 1);
    assert t == t[..p + 1] + t[p + 1..];
  }

  lemma {:induction false} OrderStatisticUnique(s: seq<nat>, p: nat, v: nat)
    requires CountBelow(s, v) <= p < CountBelow(s, v + 1)
    ensures p < |s| && Sorted(s)[p] == v
  {
    OrderStatisticRank(s, p, v);
    OrderStatisticRank(s, p, v + 1);
  }

  /** A pivot of any rearrangement of s sits at its sorted position. */
  lemma {:induction false} PivotIsOrderStatistic(s: seq<nat>, t: seq<nat>, p: nat)
    requires multiset(s) == multiset(t) && IsPivot(t, p)
    ensures p < |s| && t[p] == Sorted(s)[p]
  {
    var v := t[p];
    PivotRank(t, p);
    CountBelowPermutation(s, t, v);
    CountBelowPermutation(s, t, v + 1);
    OrderStatisticUnique(s, p, v);
  }
}
