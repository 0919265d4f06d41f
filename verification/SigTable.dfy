/** The signature table: hex digests in any case, canonicalised to lower case, kept in hash
    buckets with a total and a per-algorithm count. */
module SigTable {
  import opened Buckets
  import opened Options
  import Seqs
  import opened Text

  const MAX_SIGS := 8192
  const NAME_MAX := 63
  const HEX_MAX := 64

  datatype Algo = MD5 | SHA1 | SHA256
  datatype Key = Key(algo: Algo, hex: string)
  datatype Sig = Sig(algo: Algo, hex: string, name: string)
  datatype Digest = Digest(md5: string, sha1: string, sha256: string)
  datatype Status = Done | EINVAL | ENOMEM | EEXIST | ENOSPC | ENOENT

  type Contents = map<Key, Sig>

  function HexLen(algo: Algo): nat {
    match algo case MD5 => 32 case SHA1 => 40 case SHA256 => 64
  }

  function KeyOf(s: Sig): Key {
    Key(s.algo, s.hex)
  }

  // ----- characters

  /** The kernel's tolower, which also folds the Latin-1 capitals. */
  function LowerChar(c: char): char {
    var n := c as int;
    if 65 <= n <= 90 || (192 <= n <= 222 && n != 215) then (n + 32) as char else c
  }

  function Lower(s: string): (r: string)
    ensures |r| == |s| && forall i :: 0 <= i < |s| ==> r[i] == LowerChar(s[i])
  {
    seq(|s|, i requires 0 <= i < |s| => LowerChar(s[i]))
  }

  /** strncasecmp as an equality test. */
  predicate SamePrefix(a: string, b: string, n: nat) {
    n == 0
    || (a == "" && b == "")
    || (a != "" && b != "" && LowerChar(a[0]) == LowerChar(b[0]) && SamePrefix(a[1..], b[1..], n - 1))
  }

  lemma {:induction false} LowerTwice(s: string)
    ensures Lower(Lower(s)) == Lower(s)
  {
  }

  lemma {:induction false} HeadAndTail(s: string)
    requires s != ""
    ensures s == [s[0]] + s[1..]
  {
  }

  /** Against a string of exactly n characters the test compares the first n, folded. */
  lemma {:induction false} SamePrefixMeans(a: string, b: string, n: nat)
    requires |a| == n
    ensures SamePrefix(a, b, n) <==> |b| >= n && Lower(b[..n]) == Lower(a)
  {
    if n > 0 && b != "" {
      SamePrefixMeans(a[1..], b[1..], n - 1);
      if |b| >= n {
        var x, y := Lower(b[..n]), Lower(a);
        assert b[1..][..n - 1] == b[1..n];
        assert x[1..] == Lower(b[1..n]) && y[1..] == Lower(a[1..]);
        HeadAndTail(x);
      HeadAndTail(y);
      }
    }
  }

  // ----- the table as a map

  predicate ValidHex(algo: Algo, hex: string) {
    |hex| == HexLen(algo) && forall i :: 0 <= i < |hex| ==> IsHex(hex[i])
  }

  function Stored(algo: Algo, hex: string, name: string): Sig {
    Sig(algo, Lower(hex), Cut(name, NAME_MAX))
  }

  function AddStatus(c: Contents, algo: Algo, hex: string, allocOk: bool): Status {
    if !ValidHex(algo, hex) then EINVAL
    else if !allocOk then ENOMEM
    else if Key(algo, Lower(hex)) in c then EEXIST
    else if |c| >= MAX_SIGS then ENOSPC
    else Done
  }

  function Added(c: Contents, algo: Algo, hex: string, name: string, allocOk: bool): Contents {
    if AddStatus(c, algo, hex, allocOk) == Done then c[Key(algo, Lower(hex)) := Stored(algo, hex, name)] else c
  }

  /** The entry a walk of the bucket of `home` finds for `hex`: one whose digest is the folded
      front of `hex`, provided that it lives in that bucket. */
  predicate Reaches(c: Contents, slot: string -> nat, home: string, algo: Algo, hex: string) {
    var n := HexLen(algo);
    |hex| >= n && Key(algo, Lower(hex[..n])) in c && slot(Lower(hex[..n])) == slot(home)
  }

  /** The answers to an add, by value: 32, 40 or 64 hex digits, at most 8192 entries; only a success
      changes the table, by one entry. */
  lemma {:induction false} AddAnswers(c: Contents, algo: Algo, hex: string, name: string, allocOk: bool)
    ensures var n := match algo case MD5 => 32 case SHA1 => 40 case SHA256 => 64;
      var ok := |hex| == n && forall i :: 0 <= i < |hex| ==> IsHex(hex[i]);
      var key := Key(algo, Lower(hex));
      && (AddStatus(c, algo, hex, allocOk) == EINVAL <==> !ok)
      && (AddStatus(c, algo, hex, allocOk) == ENOMEM <==> ok && !allocOk)
      && (AddStatus(c, algo, hex, allocOk) == EEXIST <==> ok && allocOk && key in c)
      && (AddStatus(c, algo, hex, allocOk) == ENOSPC <==> ok && allocOk && key !in c && |c| >= 8192)
      && (AddStatus(c, algo, hex, allocOk) != Done ==> Added(c, algo, hex, name, allocOk) == c)
      && (AddStatus(c, algo, hex, allocOk) == Done ==>
            Added(c, algo, hex, name, allocOk) == c[key := Sig(algo, Lower(hex), Cut(name, 63))])
  {
  }

  function DelStatus(c: Contents, slot: string -> nat, algo: Algo, hex: string): Status {
    if Reaches(c, slot, Lower(Cut(hex, HEX_MAX)), algo, hex) then Done else ENOENT
  }

  function Dropped(c: Contents, slot: string -> nat, algo: Algo, hex: string): Contents {
    if DelStatus(c, slot, algo, hex) == Done then c - {Key(algo, Lower(hex[..HexLen(algo)]))} else c
  }

  function DigestFor(d: Digest, algo: Algo): string {
    match algo case MD5 => d.md5 case SHA1 => d.sha1 case SHA256 => d.sha256
  }

  /** What one algorithm's digest finds. */
  function HitOf(c: Contents, slot: string -> nat, d: Digest, algo: Algo): Option<string> {
    var hex := DigestFor(d, algo);
    if Reaches(c, slot, hex, algo, hex) then Some(c[Key(algo, Lower(hex[..HexLen(algo)]))].name) else None
  }

  function MatchOf(c: Contents, slot: string -> nat, d: Digest): Option<string> {
    if HitOf(c, slot, d, MD5).Some? then HitOf(c, slot, d, MD5)
    else if HitOf(c, slot, d, SHA1).Some? then HitOf(c, slot, d, SHA1)
    else HitOf(c, slot, d, SHA256)
  }

  lemma {:induction false} StoredIsCanonical(algo: Algo, hex: string, name: string)
    requires ValidHex(algo, hex)
    ensures var e := Stored(algo, hex, name); IsStored(e) && Lower(e.hex[..HexLen(algo)]) == e.hex
  {
    LowerTwice(hex);
    assert Lower(hex)[..HexLen(algo)] == Lower(hex);
  }

  /** What the table holds: a full-length lower-case digest and a bounded name. */
  predicate IsStored(s: Sig) {
    ValidHex(s.algo, s.hex) && Lower(s.hex) == s.hex && |s.name| <= NAME_MAX
  }

  ghost predicate Canonical(c: Contents) {
    forall k :: k in c ==> KeyOf(c[k]) == k && IsStored(c[k])
  }

  function OfAlgo(c: Contents, algo: Algo): set<Key> {
    set k | k in c && k.algo == algo
  }

  ghost predicate Counts(c: Contents, total: nat, perAlgo: map<Algo, nat>) {
    total == |c| && forall a :: a in perAlgo && perAlgo[a] == |OfAlgo(c, a)|
  }

  lemma {:induction false} CountsAdd(c: Contents, total: nat, perAlgo: map<Algo, nat>, s: Sig)
    requires Counts(c, total, perAlgo) && KeyOf(s) !in c
    ensures Counts(c[KeyOf(s) := s], total + 1, perAlgo[s.algo := perAlgo[s.algo] + 1])
  {
    Seqs.PutSize(c, KeyOf(s), s);
    var d := c[KeyOf(s) := s];
    forall a ensures |OfAlgo(d, a)| == |OfAlgo(c, a)| + (if a == s.algo then 1 else 0) {
      assert OfAlgo(d, a) == if a == s.algo then OfAlgo(c, a) + {KeyOf(s)} else OfAlgo(c, a);
    }
  }

  lemma {:induction false} CanonicalDrop(c: Contents, k: Key)
    requires Canonical(c)
    ensures Canonical(c - {k})
  {
  }

  lemma {:induction false} CountsDrop(c: Contents, total: nat, perAlgo: map<Algo, nat>, k: Key)
    requires Counts(c, total, perAlgo) && k in c
    ensures total > 0 && perAlgo[k.algo] > 0
    ensures Counts(c - {k}, total - 1, perAlgo[k.algo := perAlgo[k.algo] - 1])
  {
    var d := c - {k};
    assert c == d[k := c[k]];
    Seqs.PutSize(d, k, c[k]);
    forall a ensures |OfAlgo(c, a)| == |OfAlgo(d, a)| + (if a == k.algo then 1 else 0) {
      assert OfAlgo(c, a) == if a == k.algo then OfAlgo(d, a) + {k} else OfAlgo(d, a);
    }
    assert |OfAlgo(c, k.algo)| == |OfAlgo(d, k.algo)| + 1;
  }

  method CheckHex(algo: Algo, hex: string) returns (ok: bool)
    ensures ok == ValidHex(algo, hex)
  {
    if |hex| != HexLen(algo) {
      return false;
    }
    var i := 0;
    while i < |hex|
      invariant i <= |hex| && forall j :: 0 <= j < i ==> IsHex(hex[j])
    {
      if !IsHex(hex[i]) {
        return false;
      }
      i := i + 1;
    }
    ok := true;
  }

  predicate Fits(e: Sig, algo: Algo, hex: string) {
    e.algo == algo && SamePrefix(e.hex, hex, HexLen(algo))
  }

  method WalkBucket(bucket: seq<Sig>, algo: Algo, hex: string) returns (found: bool, i: nat)
    ensures found ==> i < |bucket| && Fits(bucket[i], algo, hex)
    ensures !found ==> forall j :: 0 <= j < |bucket| ==> !Fits(bucket[j], algo, hex)
  {
    i, found := 0, false;
    while i < |bucket|
      invariant i <= |bucket| && forall j :: 0 <= j < i ==> !Fits(bucket[j], algo, hex)
    {
      if bucket[i].algo == algo && SamePrefix(bucket[i].hex, hex, HexLen(algo)) {
        return true, i;
      }
      i := i + 1;
    }
  }

  /** An entry that fits is the map's entry at the folded front; if one is reachable it is in the bucket. */
  lemma {:induction false} WalkDecides(buckets: seq<seq<Sig>>, c: Contents, slot: Key -> nat, home: string -> nat,
                                       b: string, algo: Algo, hex: string)
    requires Shape(buckets, c, KeyOf, slot) && Canonical(c) && home(b) < |buckets|
    requires forall k :: slot(k) == home(k.hex)
    ensures forall j :: 0 <= j < |buckets[home(b)]| && Fits(buckets[home(b)][j], algo, hex) ==>
      && Reaches(c, home, b, algo, hex)
      && buckets[home(b)][j] == c[Key(algo, Lower(hex[..HexLen(algo)]))]
    ensures Reaches(c, home, b, algo, hex) ==>
      exists j :: 0 <= j < |buckets[home(b)]| && Fits(buckets[home(b)][j], algo, hex)
  {
    var bucket := buckets[home(b)];
    assert Holds(bucket, home(b), c, KeyOf, slot);
    forall j | 0 <= j < |bucket| && Fits(bucket[j], algo, hex)
      ensures Reaches(c, home, b, algo, hex) && bucket[j] == c[Key(algo, Lower(hex[..HexLen(algo)]))]
    {
      var e := bucket[j];
      assert e in bucket && slot(KeyOf(e)) == home(e.hex);
      SamePrefixMeans(e.hex, hex, HexLen(algo));
    }
    if Reaches(c, home, b, algo, hex) {
      var want := Key(algo, Lower(hex[..HexLen(algo)]));
      assert slot(want) == home(b) && c[want] in bucket;
      SamePrefixMeans(c[want].hex, hex, HexLen(algo));
    }
  }

  lemma {:induction false} PlaceIsListed(buckets: seq<seq<Sig>>, c: Contents, slot: Key -> nat, n: nat, i: nat)
    requires Shape(buckets, c, KeyOf, slot) && n < |buckets| && i < |buckets[n]|
    ensures KeyOf(buckets[n][i]) in c
  {
    assert Holds(buckets[n], n, c, KeyOf, slot) && buckets[n][i] in buckets[n];
  }

  /** What unlinking the entry at one place means for the map and the counts. */
  lemma {:induction false} PlaceDropped(buckets: seq<seq<Sig>>, c: Contents, slot: Key -> nat, n: nat, i: nat,
                                        total: nat, perAlgo: map<Algo, nat>)
    requires Shape(buckets, c, KeyOf, slot) && n < |buckets| && i < |buckets[n]|
    requires Canonical(c) && Counts(c, total, perAlgo)
    ensures var k := KeyOf(buckets[n][i]);
      && total > 0 && perAlgo[k.algo] > 0 && Canonical(c - {k})
      && Counts(c - {k}, total - 1, perAlgo[k.algo := perAlgo[k.algo] - 1])
  {
    var k := KeyOf(buckets[n][i]);
    PlaceIsListed(buckets, c, slot, n, i);
    CountsDrop(c, total, perAlgo, k);
    CanonicalDrop(c, k);
  }

  class Table {
    const index: Index<Sig, Key>
    const home: string -> nat
    var total: nat
    var perAlgo: map<Algo, nat>

    ghost predicate Valid()
      reads this, index
    {
      && index.Valid() && index.key == KeyOf && (forall k :: index.slot(k) == home(k.hex))
      && Canonical(index.contents) && Counts(index.contents, total, perAlgo) && total <= MAX_SIGS
    }

    constructor (home: string -> nat, n: nat)
      requires forall h :: home(h) < n
      ensures Valid() && index.contents == map[] && fresh(index)
    {
      var slot := (k: Key) => home(k.hex);
      forall k ensures slot(k) < n {
        assert home(k.hex) < n;
      }
      index := new Index(KeyOf, slot, n);
      this.home := home;
      total, perAlgo := 0, map[MD5 := 0, SHA1 := 0, SHA256 := 0];
      assert forall a :: OfAlgo(map[], a) == {};
      forall a: Algo ensures a in map[MD5 := 0, SHA1 := 0, SHA256 := 0] {
        match a case MD5 => case SHA1 => case SHA256 =>
      }
    }

    /** Walks one bucket. */
    method Walk(b: string, algo: Algo, hex: string) returns (found: bool, i: nat)
      requires Valid()
      ensures found == Reaches(index.contents, home, b, algo, hex)
      ensures found ==> home(b) < |index.buckets| && i < |index.buckets[home(b)]|
      ensures found ==> index.buckets[home(b)][i] == index.contents[Key(algo, Lower(hex[..HexLen(algo)]))]
    {
      assert index.slot(Key(algo, b)) == home(b);
      found, i := WalkBucket(index.buckets[home(b)], algo, hex);
      WalkDecides(index.buckets, index.contents, index.slot, home, b, algo, hex);
    }

    /** Links a new entry and counts it. */
    method Link(e: Sig)
      requires Valid() && total < MAX_SIGS && KeyOf(e) !in index.contents && IsStored(e)
      modifies this, index
      ensures Valid() && index.contents == old(index.contents)[KeyOf(e) := e]
    {
      CountsAdd(index.contents, total, perAlgo, e);
      index.Insert(e);
      total := total + 1;
      perAlgo := perAlgo[e.algo := perAlgo[e.algo] + 1];
    }

    method CountOff(algo: Algo)
      requires total > 0 && algo in perAlgo && perAlgo[algo] > 0
      modifies this`total, this`perAlgo
      ensures total == old(total) - 1 && perAlgo == old(perAlgo)[algo := old(perAlgo)[algo] - 1]
    {
      total := total - 1;
      perAlgo := perAlgo[algo := perAlgo[algo] - 1];
    }

    /** Unlinks the entry at position i of bucket n and counts it off. */
    method Unlink(n: nat, i: nat)
      requires Valid() && n < |index.buckets| && i < |index.buckets[n]|
      modifies this, index
      ensures Valid() && index.contents == old(index.contents) - {KeyOf(old(index.buckets)[n][i])}
    {
      var e := index.buckets[n][i];
      ghost var rest := index.contents - {KeyOf(e)};
      PlaceDropped(index.buckets, index.contents, index.slot, n, i, total, perAlgo);
      index.Remove(n, i);
      CountOff(e.algo);
      assert index.contents == rest && Counts(rest, total, perAlgo);
    }

    /** The locked part of an add. */
    method Store(e: Sig) returns (r: Status)
      requires Valid() && IsStored(e) && Lower(e.hex[..HexLen(e.algo)]) == e.hex
      modifies this, index
      ensures Valid()
      ensures r == if KeyOf(e) in old(index.contents) then EEXIST
                   else if |old(index.contents)| >= MAX_SIGS then ENOSPC else Done
      ensures index.contents == if r == Done then old(index.contents)[KeyOf(e) := e] else old(index.contents)
    {
      var found, _ := Walk(e.hex, e.algo, e.hex);
      if found {
        return EEXIST;
      }
      if total >= MAX_SIGS {
        return ENOSPC;
      }
      Link(e);
      r := Done;
    }

    method Add(algo: Algo, hex: string, name: string, allocOk: bool) returns (r: Status)
      requires Valid()
      modifies this, index
      ensures Valid() && r == AddStatus(old(index.contents), algo, hex, allocOk)
      ensures index.contents == Added(old(index.contents), algo, hex, name, allocOk)
    {
      var ok := CheckHex(algo, hex);
      if !ok {
        return EINVAL;
      }
      if !allocOk {
        return ENOMEM;
      }
      StoredIsCanonical(algo, hex, name);
      r := Store(Stored(algo, hex, name));
    }

    method Del(algo: Algo, hex: string) returns (r: Status)
      requires Valid()
      modifies this, index
      ensures Valid() && r == DelStatus(old(index.contents), home, algo, hex)
      ensures index.contents == Dropped(old(index.contents), home, algo, hex)
    {
      var lower := Lower(Cut(hex, HEX_MAX));
      var found, i := Walk(lower, algo, hex);
      if !found {
        return ENOENT;
      }
      Unlink(home(lower), i);
      r := Done;
    }

    method Match(d: Digest) returns (name: Option<string>)
      requires Valid()
      ensures name == MatchOf(index.contents, home, d)
    {
      var algos := [MD5, SHA1, SHA256];
      var a := 0;
      while a < 3
        invariant a <= 3
        invariant a > 0 ==> HitOf(index.contents, home, d, MD5).None?
        invariant a > 1 ==> HitOf(index.contents, home, d, SHA1).None?
        invariant a > 2 ==> HitOf(index.contents, home, d, SHA256).None?
      {
        var hex := DigestFor(d, algos[a]);
        var found, i := Walk(hex, algos[a], hex);
        if found {
          return Some(index.buckets[home(hex)][i].name);
        }
        a := a + 1;
      }
      name := None;
    }
  }

  // ----- what the map promises

  /** A digest of the exact length is found in any case by its folded key; matching, which does
      not fold before hashing, finds it when it is already lower case. */
  lemma {:induction false} ExactHex(c: Contents, slot: string -> nat, algo: Algo, hex: string)
    requires |hex| == HexLen(algo)
    ensures Reaches(c, slot, Lower(Cut(hex, HEX_MAX)), algo, hex) <==> Key(algo, Lower(hex)) in c
    ensures Lower(hex) == hex ==> (Reaches(c, slot, hex, algo, hex) <==> Key(algo, hex) in c)
  {
    assert hex[..HexLen(algo)] == hex;
  }

  /** One delete, in any case, takes back one add. */
  lemma {:induction false} DelUndoesAdd(c: Contents, slot: string -> nat, algo: Algo, hex: string, name: string,
                                        again: string)
    requires AddStatus(c, algo, hex, true) == Done && Lower(again) == Lower(hex)
    ensures var d := Added(c, algo, hex, name, true);
      DelStatus(d, slot, algo, again) == Done && Dropped(d, slot, algo, again) == c
  {
    var d := Added(c, algo, hex, name, true);
    assert |again| == |Lower(again)|;
    ExactHex(d, slot, algo, again);
    assert again[..HexLen(algo)] == again;
  }

  /** A delete that does what its argument says: exactly the entry of the whole folded digest goes,
      and success means that there was one. */
  ghost predicate DeletesExactly(c: Contents, slot: string -> nat, algo: Algo, hex: string) {
    && Dropped(c, slot, algo, hex) == c - {Key(algo, Lower(hex))}
    && (DelStatus(c, slot, algo, hex) == Done <==> Key(algo, Lower(hex)) in c)
  }

  lemma {:induction false} OtherLength(c: Contents, algo: Algo, hex: string)
    requires Canonical(c) && |hex| != HexLen(algo)
    ensures Key(algo, Lower(hex)) !in c && c - {Key(algo, Lower(hex))} == c
  {
    assert |Lower(hex)| == |hex|;
  }

  /** A digest longer than its algorithm's, whose front is listed in the bucket that is walked,
      deletes the entry of the front: an entry that the argument does not name. */
  lemma {:induction false} OverlongDeletesAnother(c: Contents, slot: string -> nat, algo: Algo, hex: string)
    requires Canonical(c) && |hex| > HexLen(algo)
    requires var front := Lower(hex[..HexLen(algo)]);
      Key(algo, front) in c && slot(front) == slot(Lower(Cut(hex, HEX_MAX)))
    ensures var front := Lower(hex[..HexLen(algo)]);
      && DelStatus(c, slot, algo, hex) == Done && Dropped(c, slot, algo, hex) == c - {Key(algo, front)}
      && Key(algo, front) != Key(algo, Lower(hex)) && Key(algo, Lower(hex)) !in c
  {
    OtherLength(c, algo, hex);
  }

  /** For SHA-256 every overlong digest with a listed front does: the buffer cuts it to the front. */
  lemma {:induction false} OverlongSha256Deletes(c: Contents, slot: string -> nat, hex: string, more: string)
    requires Canonical(c) && |hex| == HexLen(SHA256) && Key(SHA256, Lower(hex)) in c && more != ""
    ensures DelStatus(c, slot, SHA256, hex + more) == Done && Key(SHA256, Lower(hex + more)) !in c
    ensures Dropped(c, slot, SHA256, hex + more) == c - {Key(SHA256, Lower(hex))}
  {
    assert (hex + more)[..HexLen(SHA256)] == hex == Cut(hex + more, HEX_MAX);
    OverlongDeletesAnother(c, slot, SHA256, hex + more);
  }

  /** Exactly when a delete does what its argument says: the digest is no longer than its
      algorithm's, or its front is not listed, or the two hash to different buckets. */
  lemma {:induction false} DeleteIsExact(c: Contents, slot: string -> nat, algo: Algo, hex: string)
    requires Canonical(c)
    ensures DeletesExactly(c, slot, algo, hex) <==>
      || |hex| <= HexLen(algo)
      || Key(algo, Lower(hex[..HexLen(algo)])) !in c
      || slot(Lower(hex[..HexLen(algo)])) != slot(Lower(Cut(hex, HEX_MAX)))
  {
    if |hex| == HexLen(algo) {
      ExactHex(c, slot, algo, hex);
      assert hex[..HexLen(algo)] == hex;
      assert Key(algo, Lower(hex)) !in c ==> c - {Key(algo, Lower(hex))} == c;
    } else {
      OtherLength(c, algo, hex);
      if DelStatus(c, slot, algo, hex) == Done {
        OverlongDeletesAnother(c, slot, algo, hex);
      }
    }
  }

  /** One add, of what was listed, takes back one delete. */
  lemma {:induction false} AddUndoesDel(c: Contents, slot: string -> nat, k: Key)
    requires Canonical(c) && k in c && |c| <= MAX_SIGS
    ensures var d := Dropped(c, slot, k.algo, k.hex);
      && AddStatus(d, k.algo, k.hex, true) == Done
      && Added(d, k.algo, k.hex, c[k].name, true) == c
  {
    ExactHex(c, slot, k.algo, k.hex);
    assert k.hex[..HexLen(k.algo)] == k.hex;
    var d := c - {k};
    assert c == d[k := c[k]];
    Seqs.PutSize(d, k, c[k]);
  }

  /** What the hashing step hands over: full-length lower-case digests. */
  predicate Computed(d: Digest) {
    forall a :: |DigestFor(d, a)| == HexLen(a) && Lower(DigestFor(d, a)) == DigestFor(d, a)
  }

  /** The first algorithm with a hit decides, in the order MD5, SHA-1, SHA-256. */
  lemma {:induction false} FirstHitDecides(c: Contents, slot: string -> nat, d: Digest)
    requires Computed(d)
    ensures MatchOf(c, slot, d) ==
      if Key(MD5, d.md5) in c then Some(c[Key(MD5, d.md5)].name)
      else if Key(SHA1, d.sha1) in c then Some(c[Key(SHA1, d.sha1)].name)
      else if Key(SHA256, d.sha256) in c then Some(c[Key(SHA256, d.sha256)].name)
      else None
  {
    forall a ensures HitOf(c, slot, d, a)
      == if Key(a, DigestFor(d, a)) in c then Some(c[Key(a, DigestFor(d, a))].name) else None
    {
      var hex := DigestFor(d, a);
      assert |hex| == HexLen(a);
      ExactHex(c, slot, a, hex);
      assert hex[..HexLen(a)] == hex;
    }
  }

  /** The digests that are actually computed: MD5 and SHA-1 only if the table holds any. */
  function WithSkips(d: Digest, perAlgo: map<Algo, nat>): Digest
    requires MD5 in perAlgo && SHA1 in perAlgo
  {
    Digest(if perAlgo[MD5] > 0 then d.md5 else "", if perAlgo[SHA1] > 0 then d.sha1 else "", d.sha256)
  }

  lemma {:induction false} NoneOfAlgo(c: Contents, slot: string -> nat, d: Digest, a: Algo)
    requires |OfAlgo(c, a)| == 0
    ensures HitOf(c, slot, d, a) == None
  {
    assert forall k :: k in c && k.algo == a ==> k in OfAlgo(c, a);
  }

  /** Skipping the digests no signature could match never changes the answer. */
  lemma {:induction false} SkipsAreInvisible(c: Contents, slot: string -> nat, d: Digest, total: nat,
                                          perAlgo: map<Algo, nat>)
    requires Counts(c, total, perAlgo)
    ensures MatchOf(c, slot, WithSkips(d, perAlgo)) == MatchOf(c, slot, d)
  {
    var e := WithSkips(d, perAlgo);
    forall a ensures HitOf(c, slot, e, a) == HitOf(c, slot, d, a) {
      if |OfAlgo(c, a)| == 0 {
        NoneOfAlgo(c, slot, d, a);
        NoneOfAlgo(c, slot, e, a);
      } else {
        assert DigestFor(e, a) == DigestFor(d, a);
      }
    }
  }
}
