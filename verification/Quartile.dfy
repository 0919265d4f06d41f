/** The in-place quickselect that finds three quartiles of 128 bucket counts, reusing the
    pivots of the median pass as shortcuts for the two outer quartiles. */
module Quartile {
  import opened Ranks

  const EFF_BUCKETS := 128

  /** t is s with only the positions lo..hi rearranged. */
  ghost predicate Rearranges(s: seq<nat>, t: seq<nat>, lo: int, hi: int) {
    && |s| == |t|
    && multiset(s) == multiset(t)
    && forall i :: 0 <= i < |s| && !(lo <= i <= hi) ==> t[i] == s[i]
  }

  /** No element right of position hi is below one at or left of it, and likewise at lo:
      the region lo..hi holds the elements that belong there in sorted order. */
  ghost predicate Isolated(s: seq<nat>, lo: int, hi: int) {
    && (forall i, j :: 0 <= i < lo && lo <= j < |s| ==> s[i] <= s[j])
    && (forall i, j :: 0 <= i <= hi && hi < j < |s| ==> s[i] <= s[j])
  }

  function SwapAt(s: seq<nat>, i: nat, j: nat): (t: seq<nat>)
    requires i < |s| && j < |s|
    ensures |t| == |s| && t[i] == s[j] && t[j] == s[i]
    ensures forall k :: 0 <= k < |s| && k != i && k != j ==> t[k] == s[k]
  {
    s[i := s[j]][j := s[i]]
  }

  lemma {:induction false} SwapRearranges(s: seq<nat>, t: seq<nat>, lo: nat, hi: nat, i: nat, j: nat)
    requires Rearranges(s, t, lo, hi) && lo <= i <= hi < |s| && lo <= j <= hi
    ensures Rearranges(s, SwapAt(t, i, j), lo, hi)
  {
    assert multiset(t[i := t[j]][j := t[i]]) == multiset(t);
  }

  lemma {:induction false} RegionElements(s: seq<nat>, lo: nat, hi: nat)
    requires lo <= hi < |s|
    ensures multiset(s[lo..hi + 1]) == multiset(s) - multiset(s[..lo]) - multiset(s[hi + 1..])
  {
    assert s == s[..lo] + s[lo..hi + 1] + s[hi + 1..];
  }

  lemma {:induction false} RegionRearranged(s: seq<nat>, t: seq<nat>, lo: nat, hi: nat)
    requires Rearranges(s, t, lo, hi) && lo <= hi < |s|
    ensures multiset(s[lo..hi + 1]) == multiset(t[lo..hi + 1])
  {
    assert s[..lo] == t[..lo] && s[hi + 1..] == t[hi + 1..];
    RegionElements(s, lo, hi);
    RegionElements(t, lo, hi);
  }

  lemma {:induction false} RegionMembers(s: seq<nat>, t: seq<nat>, lo: nat, hi: nat, j: nat) returns (k: nat)
    requires Rearranges(s, t, lo, hi) && lo <= j <= hi < |s|
    ensures lo <= k <= hi && s[k] == t[j]
  {
    RegionRearranged(s, t, lo, hi);
    var m := s[lo..hi + 1];
    assert t[lo..hi + 1][j - lo] in multiset(t[lo..hi + 1]);
    assert t[j] in m;
    var d :| 0 <= d < |m| && m[d] == t[j];
    k := lo + d;
  }

  lemma {:induction false} IsolationKept(s: seq<nat>, t: seq<nat>, lo: nat, hi: nat)
    requires Rearranges(s, t, lo, hi) && lo <= hi < |s| && Isolated(s, lo, hi)
    ensures Isolated(t, lo, hi)
  {
    forall i, j | 0 <= i < lo && lo <= j < |t| ensures t[i] <= t[j] {
      if j <= hi {
        var k := RegionMembers(s, t, lo, hi, j);
      }
    }
    forall i, j | 0 <= i <= hi && hi < j < |t| ensures t[i] <= t[j] {
      if lo <= i {
        var k := RegionMembers(s, t, lo, hi, i);
      }
    }
  }

  /** Rearranging a region leaves every pivot outside it a pivot. */
  lemma {:induction false} PivotKept(s: seq<nat>, t: seq<nat>, lo: nat, hi: nat, p: nat)
    requires Rearranges(s, t, lo, hi) && lo <= hi < |s| && IsPivot(s, p)
    requires p < lo || hi < p
    ensures IsPivot(t, p)
  {
    forall i | 0 <= i < |t| ensures (i < p ==> t[i] <= t[p]) && (p < i ==> t[p] <= t[i]) {
      if lo <= i <= hi {
        var k := RegionMembers(s, t, lo, hi, i);
      }
    }
  }

  /** Partitioning an isolated region makes the split position a pivot of the whole array
      and isolates what is left of it and what is right of it. */
  lemma {:induction false} SplitIsPivot(s: seq<nat>, lo: nat, p: nat, hi: nat)
    requires lo <= p <= hi < |s| && Isolated(s, lo, hi)
    requires forall i :: lo <= i < p ==> s[i] <= s[p]
    requires forall i :: p < i <= hi ==> s[p] <= s[i]
    ensures IsPivot(s, p)
    ensures Isolated(s, lo, p - 1) && Isolated(s, p + 1, hi)
  {
  }

  method Swap(buf: array<nat>, i: nat, j: nat)
    requires i < buf.Length && j < buf.Length
    modifies buf
    ensures buf[..] == SwapAt(old(buf[..]), i, j)
    ensures buf[i] == old(buf[j]) && buf[j] == old(buf[i])
    ensures forall k :: 0 <= k < buf.Length && k != i && k != j ==> buf[k] == old(buf[k])
  {
    buf[i], buf[j] := buf[j], buf[i];
  }

  /** The scan has reached i: below ret the elements are smaller than the last one, from there
      to i they are not. */
  ghost predicate Scanned(was: seq<nat>, now: seq<nat>, left: nat, right: nat, ret: nat, i: nat) {
    && left <= ret <= i <= right < |now| == |was| && now[right] == was[right] && Rearranges(was, now, left, right)
    && (forall k :: left <= k < ret ==> now[k] < now[right])
    && (forall k :: ret <= k < i ==> now[right] <= now[k])
  }

  lemma {:induction false} ScanSwaps(was: seq<nat>, now: seq<nat>, left: nat, right: nat, ret: nat, i: nat)
    requires Scanned(was, now, left, right, ret, i) && i < right && now[i] < now[right]
    ensures Scanned(was, SwapAt(now, ret, i), left, right, ret + 1, i + 1)
  {
    SwapRearranges(was, now, left, right, ret, i);
  }

  /** The scan of the partition step: the last element is the pivot value, and smaller
      elements are collected at the left end. */
  method Collect(buf: array<nat>, left: nat, right: nat) returns (ret: nat)
    requires left < right < buf.Length
    modifies buf
    ensures left <= ret <= right
    ensures Rearranges(old(buf[..]), buf[..], left, right)
    ensures buf[right] == old(buf[right])
    ensures forall k :: left <= k < ret ==> buf[k] < buf[right]
    ensures forall k :: ret <= k < right ==> buf[right] <= buf[k]
  {
    ghost var was := buf[..];
    var val := buf[right];
    ret := left;
    for i := left to right
      invariant Scanned(was, buf[..], left, right, ret, i) && val == buf[right]
    {
      if buf[i] < val {
        ScanSwaps(was, buf[..], left, right, ret, i);
        Swap(buf, ret, i);
        ret := ret + 1;
      }
    }
  }

  /** The middle element becomes the pivot value and ends up between the two parts. */
  method PartitionRegion(buf: array<nat>, left: nat, right: nat) returns (ret: nat)
    requires left < right < buf.Length
    modifies buf
    ensures left <= ret <= right
    ensures Rearranges(old(buf[..]), buf[..], left, right)
    ensures forall i :: left <= i < ret ==> buf[i] <= buf[ret]
    ensures forall i :: ret < i <= right ==> buf[ret] <= buf[i]
  {
    ghost var was := buf[..];
    SwapRearranges(was, was, left, right, (left + right) / 2, right);
    Swap(buf, (left + right) / 2, right);
    ret := Collect(buf, left, right);
    SwapRearranges(was, buf[..], left, right, ret, right);
    Swap(buf, ret, right);
  }

  method Partition(buf: array<nat>, left: nat, right: nat) returns (ret: nat)
    requires left <= right < buf.Length
    modifies buf
    ensures left <= ret <= right
    ensures Rearranges(old(buf[..]), buf[..], left, right)
    ensures forall i :: left <= i < ret ==> buf[i] <= buf[ret]
    ensures forall i :: ret < i <= right ==> buf[ret] <= buf[i]
  {
    if left == right {
      return left;
    }
    if left + 1 == right {
      if buf[left] > buf[right] {
        SwapRearranges(buf[..], buf[..], left, right, left, right);
        Swap(buf, left, right);
      }
      return left;
    }
    ret := PartitionRegion(buf, left, right);
  }

  /** Quickselect: narrows lo..hi until the split position is p. */
  method Select(buf: array<nat>, lo: nat, hi: nat, p: nat) returns (v: nat)
    requires lo <= p <= hi < buf.Length && Isolated(buf[..], lo, hi)
    modifies buf
    ensures Rearranges(old(buf[..]), buf[..], lo, hi)
    ensures IsPivot(buf[..], p) && v == buf[p]
  {
    var l, r := lo, hi;
    while true
      invariant lo <= l <= p <= r <= hi
      invariant Isolated(buf[..], l, r)
      invariant Rearranges(old(buf[..]), buf[..], lo, hi)
      decreases r - l
    {
      ghost var was := buf[..];
      var ret := Partition(buf, l, r);
      IsolationKept(was, buf[..], l, r);
      SplitIsPivot(buf[..], l, ret, r);
      if ret > p {
        r := ret - 1;
      } else if ret < p {
        l := ret + 1;
      } else {
        return buf[p];
      }
    }
  }

  const P1 := EFF_BUCKETS / 4 - 1
  const P2 := EFF_BUCKETS / 2 - 1
  const P3 := EFF_BUCKETS - EFF_BUCKETS / 4 - 1
  const END := EFF_BUCKETS - 1

  /** Each of the first n entries of a shortcut stack names a pivot within lo..hi. */
  ghost predicate Shortcuts(buf: seq<nat>, stack: seq<nat>, n: nat, lo: int, hi: int) {
    n < |stack| && forall k :: 0 <= k < n ==> lo <= stack[k] <= hi && IsPivot(buf, stack[k])
  }

  lemma {:induction false} ShortcutsKept(s: seq<nat>, t: seq<nat>, stack: seq<nat>, n: nat, lo: int, hi: int, l: nat,
                                         r: nat)
    requires Shortcuts(s, stack, n, lo, hi)
    requires Rearranges(s, t, l, r) && l <= r < |s| && (hi < l || r < lo)
    ensures Shortcuts(t, stack, n, lo, hi)
  {
    forall k | 0 <= k < n ensures IsPivot(t, stack[k]) {
      PivotKept(s, t, l, r, stack[k]);
    }
  }

  lemma {:induction false} ShortcutPushed(buf: seq<nat>, stack: seq<nat>, n: nat, x: nat, lo: int, hi: int, lo': int,
                                          hi': int)
    requires Shortcuts(buf, stack, n, lo, hi) && n + 1 < |stack| && IsPivot(buf, x)
    requires lo' <= lo && hi <= hi' && lo' <= x <= hi'
    ensures Shortcuts(buf, stack[n := x], n + 1, lo', hi')
  {
  }

  /** One narrowing step: the split position becomes a pivot of the whole array, and pivots
      found outside the region stay pivots. */
  method Narrow(buf: array<nat>, l: nat, r: nat, ghost left: seq<nat>, ghost spl: nat,
                ghost right: seq<nat>, ghost spr: nat) returns (ret: nat)
    requires l <= r <= END && buf.Length == EFF_BUCKETS && Isolated(buf[..], l, r)
    requires Shortcuts(buf[..], left, spl, 0, l - 1) && Shortcuts(buf[..], right, spr, r + 1, END)
    modifies buf
    ensures l <= ret <= r && multiset(buf[..]) == multiset(old(buf[..]))
    ensures IsPivot(buf[..], ret) && Isolated(buf[..], l, ret - 1) && Isolated(buf[..], ret + 1, r)
    ensures Shortcuts(buf[..], left, spl, 0, l - 1) && Shortcuts(buf[..], right, spr, r + 1, END)
  {
    ghost var was := buf[..];
    ret := Partition(buf, l, r);
    IsolationKept(was, buf[..], l, r);
    SplitIsPivot(buf[..], l, ret, r);
    ShortcutsKept(was, buf[..], left, spl, 0, l - 1, l, r);
    ShortcutsKept(was, buf[..], right, spr, r + 1, END, l, r);
  }

  /** The median search. Every split position it passes is a pivot and is pushed on the
      stack of its side; a last entry bounds the side next to the median itself. */
  method MedianPass(buf: array<nat>, left: array<nat>, right: array<nat>) returns (q2: nat, spl: nat, spr: nat)
    requires buf.Length == left.Length == right.Length == EFF_BUCKETS
    requires buf != left && buf != right && left != right
    modifies buf, left, right
    ensures multiset(buf[..]) == multiset(old(buf[..]))
    ensures IsPivot(buf[..], P2) && q2 == buf[P2]
    ensures Shortcuts(buf[..], left[..], spl, 0, P2 - 1) && left[spl] == P2 - 1
    ensures Shortcuts(buf[..], right[..], spr, P2 + 1, END) && right[spr] == P2 + 1
  {
    var l, r := 0, END;
    spl, spr := 0, 0;
    while true
      invariant l <= P2 <= r <= END
      invariant Isolated(buf[..], l, r)
      invariant multiset(buf[..]) == multiset(old(buf[..]))
      invariant spl <= l && Shortcuts(buf[..], left[..], spl, 0, l - 1)
      invariant spr <= END - r && Shortcuts(buf[..], right[..], spr, r + 1, END)
      decreases r - l
    {
      var ret := Narrow(buf, l, r, left[..], spl, right[..], spr);
      if ret > P2 {
        ShortcutPushed(buf[..], right[..], spr, ret, r + 1, END, ret, END);
        r := ret - 1;
        right[spr] := ret;
        spr := spr + 1;
      } else if ret < P2 {
        ShortcutPushed(buf[..], left[..], spl, ret, 0, l - 1, 0, ret);
        l := ret + 1;
        left[spl] := ret;
        spl := spl + 1;
      } else {
        q2 := buf[P2];
        break;
      }
    }
    left[spl] := P2 - 1;
    right[spr] := P2 + 1;
  }

  /** The lower quartile, searched between the two shortcuts that enclose it. */
  method LowerPass(buf: array<nat>, left: array<nat>, spl: nat) returns (q1: nat)
    requires buf.Length == left.Length == EFF_BUCKETS && buf != left
    requires IsPivot(buf[..], P2)
    requires Shortcuts(buf[..], left[..], spl, 0, P2 - 1) && left[spl] == P2 - 1
    modifies buf
    ensures Rearranges(old(buf[..]), buf[..], 0, P2 - 1)
    ensures IsPivot(buf[..], P1) && q1 == buf[P1]
  {
    var i, l := 0, 0;
    while i <= spl
      invariant i <= spl && l <= P1
      invariant l == 0 || IsPivot(buf[..], l)
      invariant buf[..] == old(buf[..])
    {
      var r := left[i];
      if r > P1 {
        q1 := Select(buf, l, r, P1);
        break;
      } else if r < P1 {
        l := r;
      } else {
        q1 := buf[P1];
        break;
      }
      i := i + 1;
    }
  }

  /** The upper quartile, mirrored. */
  method UpperPass(buf: array<nat>, right: array<nat>, spr: nat) returns (q3: nat)
    requires buf.Length == right.Length == EFF_BUCKETS && buf != right
    requires IsPivot(buf[..], P2)
    requires Shortcuts(buf[..], right[..], spr, P2 + 1, END) && right[spr] == P2 + 1
    modifies buf
    ensures Rearranges(old(buf[..]), buf[..], P2 + 1, END)
    ensures IsPivot(buf[..], P3) && q3 == buf[P3]
  {
    var i, r := 0, END;
    while i <= spr
      invariant i <= spr && P3 <= r <= END
      invariant r == END || IsPivot(buf[..], r)
      invariant buf[..] == old(buf[..])
    {
      var l := right[i];
      if l < P3 {
        q3 := Select(buf, l, r, P3);
        break;
      } else if l > P3 {
        r := l;
      } else {
        q3 := buf[P3];
        break;
      }
      i := i + 1;
    }
  }

  /** The three passes. Each quartile is read off an arrangement of the counts in which its
      position is a pivot. */
  method FindQuartileIn(buf: array<nat>)
    returns (q1: nat, q2: nat, q3: nat, ghost t1: seq<nat>, ghost t2: seq<nat>, ghost t3: seq<nat>)
    requires buf.Length == EFF_BUCKETS
    modifies buf
    ensures multiset(t1) == multiset(t2) == multiset(t3) == multiset(old(buf[..]))
    ensures IsPivot(t1, P1) && q1 == t1[P1]
    ensures IsPivot(t2, P2) && q2 == t2[P2]
    ensures IsPivot(t3, P3) && q3 == t3[P3]
  {
    var left, right := new nat[EFF_BUCKETS], new nat[EFF_BUCKETS];
    var spl, spr;
    q2, spl, spr := MedianPass(buf, left, right);
    t2 := buf[..];
    q1 := LowerPass(buf, left, spl);
    t1 := buf[..];
    PivotKept(t2, t1, 0, P2 - 1, P2);
    ShortcutsKept(t2, t1, right[..], spr, P2 + 1, END, 0, P2 - 1);
    q3 := UpperPass(buf, right, spr);
    t3 := buf[..];
  }

  method CopyBuckets(bucket: array<nat>) returns (buf: array<nat>)
    requires bucket.Length >= EFF_BUCKETS
    ensures fresh(buf) && buf.Length == EFF_BUCKETS && buf[..] == bucket[..EFF_BUCKETS]
  {
    buf := new nat[EFF_BUCKETS];
    for i := 0 to EFF_BUCKETS
      invariant buf[..i] == bucket[..i]
    {
      buf[i] := bucket[i];
    }
  }

  /** The elements at positions 31, 63 and 95 in sorted order. */
  ghost predicate AreQuartiles(s: seq<nat>, q1: nat, q2: nat, q3: nat) {
    |s| == EFF_BUCKETS && q1 == Sorted(s)[31] && q2 == Sorted(s)[63] && q3 == Sorted(s)[95]
  }

  lemma {:induction false} SortedQuartiles(s: seq<nat>)
    requires |s| == EFF_BUCKETS
    ensures Sorted(s)[P1] <= Sorted(s)[P2] <= Sorted(s)[P3]
  {
  }

  lemma {:induction false} AllOrderStatistics(s: seq<nat>, t1: seq<nat>, t2: seq<nat>, t3: seq<nat>)
    requires |s| == EFF_BUCKETS && multiset(t1) == multiset(t2) == multiset(t3) == multiset(s)
    requires IsPivot(t1, P1) && IsPivot(t2, P2) && IsPivot(t3, P3)
    ensures AreQuartiles(s, t1[P1], t2[P2], t3[P3])
    ensures t1[P1] <= t2[P2] <= t3[P3]
  {
    SortedQuartiles(s);
    PivotIsOrderStatistic(s, t1, P1);
    PivotIsOrderStatistic(s, t2, P2);
    PivotIsOrderStatistic(s, t3, P3);
  }

  /** The three quartiles are the order statistics 31, 63 and 95 of the first 128 buckets;
      the bucket array itself is left as it was. */
  method FindQuartile(bucket: array<nat>) returns (q1: nat, q2: nat, q3: nat)
    requires bucket.Length >= EFF_BUCKETS
    ensures AreQuartiles(bucket[..EFF_BUCKETS], q1, q2, q3)
    ensures q1 <= q2 <= q3
  {
    ghost var s := bucket[..EFF_BUCKETS];
    var buf := CopyBuckets(bucket);
    ghost var t1, t2, t3;
    q1, q2, q3, t1, t2, t3 := FindQuartileIn(buf);
    AllOrderStatistics(s, t1, t2, t3);
  }
}
