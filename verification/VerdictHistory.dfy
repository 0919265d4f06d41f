/** The daemon's verdict history: a fixed ring of the last scans, read back newest first and
    filtered by owner. */
module VerdictHistory {
  import opened Options
  import opened Seqs
  import opened Text

  const HISTORY := 500
  const SHA_MAX := 64
  const RULE_MAX := 63

  datatype Scan = Scan(time: int, pid: nat, uid: nat, path: string, sha: string, malicious: bool,
                       rule: string, score: int, onDemand: bool)
  datatype Record = Record(id: nat, scan: Scan)

  /** The scan as its fixed-size fields hold it. */
  function Kept(s: Scan): Scan {
    s.(path := Cut(s.path, PATH_MAX - 1), sha := Cut(s.sha, SHA_MAX), rule := Cut(s.rule, RULE_MAX))
  }

  /** The path is cut to 4095 characters, the digest to 64, the rule to 63; nothing else is changed. */
  lemma {:induction false} KeptFields(s: Scan)
    ensures Kept(s).path <= s.path && |Kept(s).path| == Min(|s.path|, 4095)
    ensures Kept(s).sha <= s.sha && |Kept(s).sha| == Min(|s.sha|, 64)
    ensures Kept(s).rule <= s.rule && |Kept(s).rule| == Min(|s.rule|, 63)
    ensures Kept(s).(path := s.path, sha := s.sha, rule := s.rule) == s
  {
  }

  // ----- reading back, on the whole log

  function Reverse(log: seq<Record>): (r: seq<Record>)
    ensures |r| == |log| && forall i :: 0 <= i < |log| ==> r[i] == log[|log| - 1 - i]
  {
    seq(|log|, i requires 0 <= i < |log| => log[|log| - 1 - i])
  }

  /** The last HISTORY records, newest first. */
  function Newest(log: seq<Record>): (r: seq<Record>) {
    Reverse(log)[..Min(|log|, HISTORY)]
  }

  predicate VisibleTo(r: Record, uid: nat, root: bool) {
    root || r.scan.uid == uid
  }

  function Visible(s: seq<Record>, uid: nat, root: bool): (r: seq<Record>)
    ensures |r| <= |s|
  {
    if s == [] then []
    else if VisibleTo(s[0], uid, root) then [s[0]] + Visible(s[1..], uid, root)
    else Visible(s[1..], uid, root)
  }

  /** What a client that asks for n rows is entitled to. */
  function Rows(log: seq<Record>, n: nat, uid: nat, root: bool): seq<Record> {
    var v := Visible(Newest(log), uid, root);
    v[..Min(|v|, n)]
  }

  ghost predicate Numbered(log: seq<Record>) {
    forall i :: 0 <= i < |log| ==> log[i].id == i + 1
  }

  // ----- the ring

  lemma {:induction false} Behind(next: nat, i: nat, n: nat)
    requires next < HISTORY && i < HISTORY && n % HISTORY == next && i < n
    ensures (next + HISTORY - 1 - i) % HISTORY == (n - 1 - i) % HISTORY
  {
    var q := n / HISTORY;
    assert n - 1 - i == HISTORY * (q - 1) + (next + HISTORY - 1 - i);
    ModShift(next + HISTORY - 1 - i, q - 1);
  }

  lemma {:induction false} ModShift(a: nat, k: int)
    requires a + HISTORY * k >= 0
    ensures (a + HISTORY * k) % HISTORY == a % HISTORY
  {
    assert (a + HISTORY * k) / HISTORY == a / HISTORY + k;
  }

  lemma {:induction false} NextSlot(n: nat, next: nat)
    requires next == n % HISTORY
    ensures (next + 1) % HISTORY == (n + 1) % HISTORY
  {
  }

  lemma {:induction false} SlotsDiffer(a: nat, b: nat)
    requires a < b < a + HISTORY
    ensures a % HISTORY != b % HISTORY
  {
  }

  class History {
    const ring: array<Record>
    var count: nat
    var next: nat
    var nextId: nat
    /** Every scan recorded since the start. */
    ghost var log: seq<Record>

    ghost predicate Valid()
      reads this, ring
    {
      && ring.Length == HISTORY
      && count == Min(|log|, HISTORY) && next == |log| % HISTORY && nextId == |log| + 1
      && Numbered(log)
      && forall k :: 0 <= k < |log| && |log| - HISTORY <= k ==> ring[k % HISTORY] == log[k]
    }

    constructor (blank: Record)
      ensures Valid() && log == [] && fresh(ring)
    {
      ring := new Record[HISTORY](_ => blank);
      count, next, nextId, log := 0, 0, 1, [];
    }

    method Append(s: Scan)
      requires Valid()
      modifies this, ring
      ensures Valid() && log == old(log) + [Record(|old(log)| + 1, Kept(s))]
    {
      var r := Record(nextId, Kept(s));
      ghost var n := |log|;
      forall k | 0 <= k < n && n + 1 - HISTORY <= k ensures k % HISTORY != n % HISTORY {
        SlotsDiffer(k, n);
      }
      ring[next] := r;
      NextSlot(n, next);
      nextId := nextId + 1;
      next := (next + 1) % HISTORY;
      if count < HISTORY {
        count := count + 1;
      }
      log := log + [r];
    }

    /** The copy taken under the lock, newest first. */
    method Snapshot() returns (snap: seq<Record>)
      requires Valid()
      ensures snap == Newest(log)
    {
      snap := [];
      while |snap| < count
        invariant |snap| <= count && snap == Newest(log)[..|snap|]
      {
        var i := |snap|;
        Behind(next, i, |log|);
        snap := snap + [ring[(next + HISTORY - 1 - i) % HISTORY]];
      }
    }

    /** The announced count, the rows that got through before the first failed write, and whether
        the closing line was sent. */
    method Recent(n: nat, uid: nat, root: bool, allocOk: bool, writes: nat)
      returns (announced: Option<nat>, rows: seq<Record>, ended: bool)
      requires Valid()
      ensures announced == if count > 0 && !allocOk then None else Some(|Rows(log, n, uid, root)|)
      ensures announced == None ==> rows == [] && !ended
      ensures announced.Some? ==> rows == Rows(log, n, uid, root)[..Min(writes, announced.value)]
      ensures announced.Some? ==> (ended <==> announced.value <= writes)
    {
      if count > 0 && !allocOk {
        return None, [], false;
      }
      var snap := Snapshot();
      var take := CountVisible(snap, n, uid, root);
      announced := Some(take);
      rows, ended := SendVisible(snap, n, uid, root, writes);
    }
  }

  lemma {:induction false} VisibleSnoc(s: seq<Record>, i: nat, uid: nat, root: bool)
    requires i < |s|
    ensures Visible(s[..i + 1], uid, root)
      == Visible(s[..i], uid, root) + (if VisibleTo(s[i], uid, root) then [s[i]] else [])
  {
    if i > 0 {
      VisibleSnoc(s[1..], i - 1, uid, root);
      assert s[..i + 1][1..] == s[1..][..i] && s[..i][1..] == s[1..][..i - 1];
    }
  }

  lemma {:induction false} VisiblePrefix(s: seq<Record>, i: nat, uid: nat, root: bool)
    requires i <= |s|
    ensures Visible(s[..i], uid, root) <= Visible(s, uid, root)
    decreases |s| - i
  {
    if i == |s| {
      assert s[..i] == s;
    } else {
      VisibleSnoc(s, i, uid, root);
      VisiblePrefix(s, i + 1, uid, root);
    }
  }

  /** The first pass: how many rows there will be. */
  method CountVisible(snap: seq<Record>, n: nat, uid: nat, root: bool) returns (take: nat)
    ensures take == Min(|Visible(snap, uid, root)|, n)
  {
    var i := 0;
    take := 0;
    assert snap[..0] == [];
    while i < |snap| && take < n
      invariant i <= |snap| && take <= n && take == |Visible(snap[..i], uid, root)|
    {
      VisibleSnoc(snap, i, uid, root);
      if VisibleTo(snap[i], uid, root) {
        take := take + 1;
      }
      i := i + 1;
    }
    VisiblePrefix(snap, i, uid, root);
    assert i == |snap| ==> snap[..i] == snap;
  }

  /** The second pass: the rows themselves, until one cannot be written. */
  method SendVisible(snap: seq<Record>, n: nat, uid: nat, root: bool, writes: nat)
    returns (rows: seq<Record>, ended: bool)
    ensures var v := Visible(snap, uid, root); var m := Min(|v|, n);
      rows == v[..Min(writes, m)] && (ended <==> m <= writes)
  {
    var i := 0;
    rows, ended := [], false;
    assert snap[..0] == [];
    while i < |snap| && |rows| < n
      invariant i <= |snap| && |rows| <= n && |rows| <= writes && rows == Visible(snap[..i], uid, root)
    {
      VisibleSnoc(snap, i, uid, root);
      VisiblePrefix(snap, i + 1, uid, root);
      if VisibleTo(snap[i], uid, root) {
        if |rows| == writes {
          return;
        }
        rows := rows + [snap[i]];
      }
      i := i + 1;
    }
    VisiblePrefix(snap, i, uid, root);
    assert i == |snap| ==> snap[..i] == snap;
    ended := true;
  }

  // ----- what a client sees

  lemma {:induction false} VisibleAre(s: seq<Record>, uid: nat, root: bool)
    ensures forall r :: r in Visible(s, uid, root) <==> r in s && VisibleTo(r, uid, root)
  {
    if s != [] {
      VisibleAre(s[1..], uid, root);
      assert s == [s[0]] + s[1..];
    }
  }

  ghost predicate Descending(s: seq<Record>) {
    forall i, j :: 0 <= i < j < |s| ==> s[i].id > s[j].id
  }

  lemma {:induction false} VisibleDescends(s: seq<Record>, uid: nat, root: bool)
    requires Descending(s)
    ensures Descending(Visible(s, uid, root))
  {
    if s != [] {
      var rest := s[1..];
      VisibleDescends(rest, uid, root);
      VisibleAre(rest, uid, root);
      forall r | r in rest ensures r.id < s[0].id {
        var j :| 0 <= j < |rest| && rest[j] == r;
        assert s[j + 1] == r;
      }
      var v := Visible(rest, uid, root);
      forall j | 0 <= j < |v| ensures v[j].id < s[0].id {
        assert v[j] in v;
      }
    }
  }

  lemma {:induction false} InNewest(log: seq<Record>, k: nat)
    requires Numbered(log) && k < |log|
    ensures log[k] in Newest(log) <==> |log| - HISTORY <= k
  {
    var all := Newest(log);
    if |log| - HISTORY <= k {
      assert all[|log| - 1 - k] == log[k];
    }
    if log[k] in all {
      var i :| 0 <= i < |all| && all[i] == log[k];
      assert log[|log| - 1 - i].id == k + 1;
    }
  }

  lemma {:induction false} NewestInLog(log: seq<Record>, r: Record)
    requires r in Newest(log)
    ensures r in log
  {
    var i :| 0 <= i < |Newest(log)| && Newest(log)[i] == r;
    assert log[|log| - 1 - i] == r;
  }

  /** The rows are the client's own records among the last HISTORY, newest first, and one of those
      is missing only when n newer ones fill the answer. */
  lemma {:induction false} RowsAreNewest(log: seq<Record>, n: nat, uid: nat, root: bool, k: nat)
    requires Numbered(log) && k < |log|
    ensures var rows := Rows(log, n, uid, root);
      && |rows| <= n && Descending(rows) && (forall r :: r in rows ==> r in log && (root || r.scan.uid == uid))
      && (log[k] in rows ==> |log| - 500 <= k)
      && ((root || log[k].scan.uid == uid) && |log| - 500 <= k && log[k] !in rows ==>
            |rows| == n && forall r :: r in rows ==> r.id > log[k].id)
  {
    var all, v := Newest(log), Visible(Newest(log), uid, root);
    VisibleAre(all, uid, root);
    VisibleDescends(all, uid, root);
    InNewest(log, k);
    forall r | r in Rows(log, n, uid, root) ensures r in log && (root || r.scan.uid == uid) {
      assert r in v;
      NewestInLog(log, r);
    }
    if log[k] in v {
      var j :| 0 <= j < |v| && v[j] == log[k];
      assert j < n ==> Rows(log, n, uid, root)[j] == log[k];
    }
  }
}
