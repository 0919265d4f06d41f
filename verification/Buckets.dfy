/** A fixed array of buckets, each a list of entries: the kernel's hash table. Entries are
    looked up by a key; `contents` is the map the table stands for. */
module Buckets {

  ghost predicate Distinct<E, K>(b: seq<E>, key: E -> K) {
    forall i, j :: 0 <= i < j < |b| ==> key(b[i]) != key(b[j])
  }

  /** Bucket n holds exactly the entries of `c` whose key hashes to n, each once. */
  ghost predicate Holds<E, K(!new)>(b: seq<E>, n: nat, c: map<K, E>, key: E -> K, slot: K -> nat) {
    && Distinct(b, key)
    && (forall e :: e in b ==> slot(key(e)) == n && key(e) in c && c[key(e)] == e)
    && (forall k :: k in c && slot(k) == n ==> c[k] in b)
  }

  ghost predicate Shape<E, K(!new)>(buckets: seq<seq<E>>, c: map<K, E>, key: E -> K, slot: K -> nat) {
    && (forall k :: slot(k) < |buckets|)
    && (forall k :: k in c ==> key(c[k]) == k)
    && (forall n :: 0 <= n < |buckets| ==> Holds(buckets[n], n, c, key, slot))
  }

  lemma {:induction false} OthersHold<E, K(!new)>(buckets: seq<seq<E>>, c: map<K, E>, d: map<K, E>, key: E -> K,
                                                   slot: K -> nat, n: nat, b: seq<E>)
    requires Shape(buckets, c, key, slot) && n < |buckets| && Holds(b, n, d, key, slot)
    requires forall k :: k in d ==> key(d[k]) == k
    requires forall k :: slot(k) != n ==> (k in c <==> k in d) && (k in c ==> c[k] == d[k])
    ensures Shape(buckets[n := b], d, key, slot)
  {
    var t := buckets[n := b];
    forall m | 0 <= m < |t| ensures Holds(t[m], m, d, key, slot) {
      assert Holds(buckets[m], m, c, key, slot);
    }
  }

  lemma {:induction false} InsertShape<E, K(!new)>(buckets: seq<seq<E>>, c: map<K, E>, key: E -> K, slot: K -> nat,
                                          e: E)
    requires Shape(buckets, c, key, slot) && key(e) !in c
    ensures var n := slot(key(e));
      Shape(buckets[n := [e] + buckets[n]], c[key(e) := e], key, slot)
  {
    var n := slot(key(e));
    var was := buckets[n];
    var b := [e] + was;
    assert Holds(was, n, c, key, slot);
    forall i, j | 0 <= i < j < |b| ensures key(b[i]) != key(b[j]) {
      assert b[j] == was[j - 1] && was[j - 1] in was;
      assert i > 0 ==> b[i] == was[i - 1];
    }
    assert forall x :: x in b <==> x == e || x in was;
    OthersHold(buckets, c, c[key(e) := e], key, slot, n, b);
  }

  lemma {:induction false} SetAt<E, K>(was: seq<E>, i: nat, e: E, key: E -> K)
    requires i < |was| && Distinct(was, key) && key(e) == key(was[i])
    ensures Distinct(was[i := e], key)
    ensures forall x :: x in was[i := e] <==> x == e || (x in was && key(x) != key(e))
  {
    var b := was[i := e];
    assert b[i] == e;
    forall x | x in b ensures x == e || (x in was && key(x) != key(e)) {
      var j :| 0 <= j < |b| && b[j] == x;
      assert j != i ==> was[j] == x && key(was[j]) != key(was[i]);
    }
    forall x | x in was && key(x) != key(e) ensures x in b {
      var j :| 0 <= j < |was| && was[j] == x;
      assert b[j] == x;
    }
  }

  lemma {:induction false} ReplaceShape<E, K(!new)>(buckets: seq<seq<E>>, c: map<K, E>, key: E -> K, slot: K -> nat,
                                                    n: nat, i: nat, e: E)
    requires Shape(buckets, c, key, slot) && n < |buckets| && i < |buckets[n]| && key(e) == key(buckets[n][i])
    ensures key(e) in c && Shape(buckets[n := buckets[n][i := e]], c[key(e) := e], key, slot)
  {
    var was := buckets[n];
    assert was[i] in was && Holds(was, n, c, key, slot);
    SetAt(was, i, e, key);
    assert Holds(was[i := e], n, c[key(e) := e], key, slot);
    OthersHold(buckets, c, c[key(e) := e], key, slot, n, was[i := e]);
  }

  lemma {:induction false} DropDistinct<E, K>(a: seq<E>, e: E, c: seq<E>, key: E -> K)
    requires Distinct(a + [e] + c, key)
    ensures Distinct(a + c, key)
  {
    var was, b := a + [e] + c, a + c;
    forall x, y | 0 <= x < y < |b| ensures key(b[x]) != key(b[y]) {
      var x', y' := if x < |a| then x else x + 1, if y < |a| then y else y + 1;
      assert b[x] == was[x'] && b[y] == was[y'];
    }
  }

  lemma {:induction false} OthersDiffer<E, K>(a: seq<E>, e: E, c: seq<E>, key: E -> K)
    requires Distinct(a + [e] + c, key)
    ensures forall x :: x in a || x in c ==> key(x) != key(e)
  {
    var was := a + [e] + c;
    assert was[|a|] == e;
    forall x | x in a ensures key(x) != key(e) {
      var j :| 0 <= j < |a| && a[j] == x;
      assert was[j] == x;
    }
    forall x | x in c ensures key(x) != key(e) {
      var j :| 0 <= j < |c| && c[j] == x;
      assert was[|a| + 1 + j] == x;
    }
  }

  lemma {:induction false} DropAt<E, K>(was: seq<E>, i: nat, key: E -> K)
    requires i < |was| && Distinct(was, key)
    ensures var b := was[..i] + was[i + 1..];
      Distinct(b, key) && forall x :: x in b <==> x in was && key(x) != key(was[i])
  {
    var a, e, c := was[..i], was[i], was[i + 1..];
    assert was == a + [e] + c;
    DropDistinct(a, e, c, key);
    OthersDiffer(a, e, c, key);
  }

  lemma {:induction false} RemoveShape<E, K(!new)>(buckets: seq<seq<E>>, c: map<K, E>, key: E -> K, slot: K -> nat,
                                          n: nat, i: nat)
    requires Shape(buckets, c, key, slot) && n < |buckets| && i < |buckets[n]|
    ensures var b := buckets[n];
      Shape(buckets[n := b[..i] + b[i + 1..]], c - {key(b[i])}, key, slot)
  {
    var was := buckets[n];
    var k := key(was[i]);
    assert was[i] in was && Holds(was, n, c, key, slot);
    DropAt(was, i, key);
    var b := was[..i] + was[i + 1..];
    assert Holds(b, n, c - {k}, key, slot);
    OthersHold(buckets, c, c - {k}, key, slot, n, b);
  }

  class Index<E, K(==, !new)> {
    const key: E -> K
    const slot: K -> nat
    var buckets: seq<seq<E>>
    ghost var contents: map<K, E>

    ghost predicate Valid()
      reads this
    {
      Shape(buckets, contents, key, slot)
    }

    constructor (key: E -> K, slot: K -> nat, n: nat)
      requires forall k :: slot(k) < n
      ensures Valid() && contents == map[] && this.key == key && this.slot == slot
    {
      this.key, this.slot := key, slot;
      buckets := seq(n, _ => []);
      contents := map[];
    }

    /** Walks the bucket of `k`. */
    method Find(k: K) returns (found: bool, i: nat)
      requires Valid()
      ensures found == (k in contents)
      ensures found ==> i < |buckets[slot(k)]| && buckets[slot(k)][i] == contents[k]
    {
      var b := buckets[slot(k)];
      assert Holds(b, slot(k), contents, key, slot);
      assert k in contents ==> contents[k] in b;
      i, found := 0, false;
      while i < |b|
        invariant i <= |b| && forall j :: 0 <= j < i ==> key(b[j]) != k
      {
        if key(b[i]) == k {
          assert b[i] in b;
          return true, i;
        }
        i := i + 1;
      }
    }

    method Replace(n: nat, i: nat, e: E)
      requires Valid() && n < |buckets| && i < |buckets[n]| && key(buckets[n][i]) == key(e)
      modifies this
      ensures Valid() && key(e) in old(contents)
      ensures buckets == old(buckets)[n := old(buckets)[n][i := e]] && contents == old(contents)[key(e) := e]
    {
      ReplaceShape(buckets, contents, key, slot, n, i, e);
      buckets := buckets[n := buckets[n][i := e]];
      contents := contents[key(e) := e];
    }

    method Remove(n: nat, i: nat)
      requires Valid() && n < |buckets| && i < |buckets[n]|
      modifies this
      ensures Valid() && key(old(buckets)[n][i]) in old(contents)
      ensures buckets == old(buckets)[n := old(buckets)[n][..i] + old(buckets)[n][i + 1..]]
      ensures contents == old(contents) - {key(old(buckets)[n][i])} && |contents| == |old(contents)| - 1
    {
      RemoveShape(buckets, contents, key, slot, n, i);
      ghost var k := key(buckets[n][i]);
      assert Holds(buckets[n], n, contents, key, slot) && buckets[n][i] in buckets[n];
      assert contents == (contents - {k})[k := contents[k]];
      buckets := buckets[n := buckets[n][..i] + buckets[n][i + 1..]];
      contents := contents - {k};
    }

    /** New entries go to the head of their bucket. */
    method Insert(e: E)
      requires Valid() && key(e) !in contents
      modifies this
      ensures Valid() && contents == old(contents)[key(e) := e]
    {
      InsertShape(buckets, contents, key, slot, e);
      var n := slot(key(e));
      buckets := buckets[n := [e] + buckets[n]];
      contents := contents[key(e) := e];
    }
  }
}
