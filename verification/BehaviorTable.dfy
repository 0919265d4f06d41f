/** The per-process table: a bucketed hash table with a live counter, a hard cap with
    least-recently-touched eviction, a sweep of dead processes, and the reset on pid reuse. */
module BehaviorTable {
  import opened Buckets
  import Seqs
  import SlidingWindow
  import opened Options

  const MAX_ENTRIES := 8192

  /** One tracked process. `opens` and `renames` are the notes made since the rings were last
      emptied, which determine what the rings hold. */
  datatype Entry = Entry(pid: nat, exec: string, trusted: bool, start: nat, touched: nat,
                         opens: seq<SlidingWindow.Note>, renames: seq<SlidingWindow.Note>)

  type Contents = map<nat, Entry>

  function PidOf(e: Entry): nat {
    e.pid
  }

  function Blank(pid: nat, now: nat): Entry {
    Entry(pid, "", false, 0, now, [], [])
  }

  // ----- what the operations do

  ghost predicate IsOldest(c: Contents, p: nat) {
    p in c && forall q :: q in c ==> c[p].touched <= c[q].touched
  }

  /** The table after looking up or creating `pid`; `victim` is who made room. */
  ghost predicate Touched(c: Contents, d: Contents, pid: nat, now: nat, allocOk: bool, victim: Option<nat>) {
    var base := if victim.Some? then c - {victim.value} else c;
    && (victim.Some? <==> pid !in c && |c| >= MAX_ENTRIES)
    && (victim.Some? ==> IsOldest(c, victim.value))
    && d == if pid in c then c[pid := c[pid].(touched := now)]
            else if allocOk then base[pid := Blank(pid, now)]
            else base
  }

  /** The sweep's view of a live process: a recorded start time that no longer matches means the
      pid was reused. */
  function Sweep(e: Entry, start: nat): Entry {
    if e.start != 0 && e.start != start
    then e.(start := start, exec := "", trusted := false, opens := [], renames := [])
    else e
  }

  ghost predicate Swept(c: Contents, d: Contents, live: map<nat, nat>) {
    && d.Keys == c.Keys * live.Keys
    && forall p :: p in d ==> d[p] == Sweep(c[p], live[p])
  }

  /** An exec by the process that started at `start`. */
  function Execed(e: Entry, exec: string, trusted: bool, start: nat): Entry {
    var f := e.(exec := exec, trusted := trusted);
    if e.start != start then f.(start := start, opens := [], renames := []) else f
  }

  const OPEN_THRESHOLD := 50

  datatype Reason = SensitivePath | RapidWrites | RapidRenaming

  /** The volume count applies to a tracked, untrusted process and a path that is not noise. */
  predicate Counted(c: Contents, pid: nat, noise: bool) {
    pid in c && !c[pid].trusted && !noise
  }

  /** The ring answers the last of these notes with more than the threshold. */
  predicate Rapid(opens: seq<SlidingWindow.Note>, w: nat)
    requires opens != []
  {
    SlidingWindow.RingReturn(opens, OPEN_THRESHOLD, w) > OPEN_THRESHOLD
  }

  function Opened(e: Entry, hash: nat, now: nat): Entry {
    e.(opens := e.opens + [SlidingWindow.Note(hash, now)])
  }

  /** One more open counts and takes the process above the threshold. */
  predicate TooManyOpens(c: Contents, pid: nat, hash: nat, noise: bool, now: nat, w: nat) {
    Counted(c, pid, noise) && Rapid(Opened(c[pid], hash, now).opens, w)
  }

  const RENAME_THRESHOLD := 20

  /** The same for the second ring, which has its own threshold. */
  predicate RapidRenames(renames: seq<SlidingWindow.Note>, w: nat)
    requires renames != []
  {
    SlidingWindow.RingReturn(renames, RENAME_THRESHOLD, w) > RENAME_THRESHOLD
  }

  function Renamed(e: Entry, hash: nat, now: nat): Entry {
    e.(renames := e.renames + [SlidingWindow.Note(hash, now)])
  }

  /** One more rename counts and takes the process above the threshold. */
  predicate TooManyRenames(c: Contents, pid: nat, hash: nat, noise: bool, now: nat, w: nat) {
    Counted(c, pid, noise) && RapidRenames(Renamed(c[pid], hash, now).renames, w)
  }

  /** The operations on the table: an exec, a write-intent open, a rename that appends an extension,
      any other lookup, the sweep. */
  datatype Op =
    | Exec(pid: nat, exec: string, trusted: bool, start: nat, now: nat, allocOk: bool)
    | Open(pid: nat, hash: nat, noise: bool, now: nat, allocOk: bool)
    | Rename(pid: nat, hash: nat, noise: bool, now: nat, allocOk: bool)
    | Look(pid: nat, now: nat, allocOk: bool)
    | SweepOp(live: map<nat, nat>)

  /** What an operation does to the entry it has looked up, if there is one. */
  function Followed(mid: Contents, op: Op): Contents
    requires !op.SweepOp?
  {
    match op
    case Exec(pid, exec, trusted, start, _, _) =>
      if pid in mid then mid[pid := Execed(mid[pid], exec, trusted, start)] else mid
    case Open(pid, hash, noise, now, _) =>
      if Counted(mid, pid, noise) then mid[pid := Opened(mid[pid], hash, now)] else mid
    case Rename(pid, hash, noise, now, _) =>
      if Counted(mid, pid, noise) then mid[pid := Renamed(mid[pid], hash, now)] else mid
    case Look(_, _, _) => mid
  }

  /** What an open or a rename is answered, on the table after its lookup: a reason to kill, or none. */
  function Answer(mid: Contents, op: Op, sensitive: bool, w: nat): Option<Reason>
    requires op.Open? || op.Rename?
  {
    if sensitive then Some(SensitivePath)
    else if op.Rename? then
      if TooManyRenames(mid, op.pid, op.hash, op.noise, op.now, w) then Some(RapidRenaming) else None
    else if TooManyOpens(mid, op.pid, op.hash, op.noise, op.now, w) then Some(RapidWrites)
    else None
  }

  /** One operation as a transition; the lookup may evict another entry. */
  ghost predicate Does(c: Contents, d: Contents, op: Op) {
    if op.SweepOp? then Swept(c, d, op.live)
    else exists mid, victim :: Touched(c, mid, op.pid, op.now, op.allocOk, victim) && d == Followed(mid, op)
  }

  /** A lookup and what follows it make an operation. */
  lemma {:induction false} MakesOperation(c: Contents, mid: Contents, d: Contents, op: Op, victim: Option<nat>)
    requires !op.SweepOp? && Touched(c, mid, op.pid, op.now, op.allocOk, victim) && d == Followed(mid, op)
    ensures Does(c, d, op)
  {
  }

  lemma {:induction false} OpenFollowed(mid: Contents, pid: nat, hash: nat, noise: bool, now: nat, allocOk: bool)
    ensures Followed(mid, Open(pid, hash, noise, now, allocOk))
      == if Counted(mid, pid, noise) then mid[pid := Opened(mid[pid], hash, now)] else mid
  {
  }

  lemma {:induction false} RenameFollowed(mid: Contents, pid: nat, hash: nat, noise: bool, now: nat, allocOk: bool)
    ensures Followed(mid, Rename(pid, hash, noise, now, allocOk))
      == if Counted(mid, pid, noise) then mid[pid := Renamed(mid[pid], hash, now)] else mid
  {
  }

  class Table {
    const index: Index<Entry, nat>
    var count: nat
    var sweepSoon: bool

    ghost predicate Valid()
      reads this, index
    {
      index.Valid() && index.key == PidOf && count == |index.contents| && count <= MAX_ENTRIES
    }

    constructor (slot: nat -> nat, n: nat)
      requires forall p :: slot(p) < n
      ensures Valid() && index.contents == map[] && fresh(index)
    {
      index := new Index(PidOf, slot, n);
      count, sweepSoon := 0, false;
    }

    /** Scans every bucket for the entry touched longest ago, the first of several. */
    method FindOldest() returns (found: bool, k: nat, i: nat)
      requires index.Valid() && index.key == PidOf
      ensures found == (index.contents != map[])
      ensures found ==> k < |index.buckets| && i < |index.buckets[k]|
      ensures found ==> IsOldest(index.contents, index.buckets[k][i].pid)
    {
      found, k, i := false, 0, 0;
      var m := 0;
      while m < |index.buckets|
        invariant m <= |index.buckets|
        invariant found ==> k < |index.buckets| && i < |index.buckets[k]|
        invariant !found ==> forall x :: 0 <= x < m ==> index.buckets[x] == []
        invariant found ==> forall x, e :: 0 <= x < m && e in index.buckets[x] ==>
                              index.buckets[k][i].touched <= e.touched
      {
        var b := index.buckets[m];
        var j := 0;
        while j < |b|
          invariant j <= |b|
          invariant found ==> k < |index.buckets| && i < |index.buckets[k]|
          invariant !found ==> j == 0 && forall x :: 0 <= x < m ==> index.buckets[x] == []
          invariant found ==> forall x, e :: 0 <= x < m && e in index.buckets[x] ==>
                                index.buckets[k][i].touched <= e.touched
          invariant found ==> forall x :: 0 <= x < j ==> index.buckets[k][i].touched <= b[x].touched
        {
          if !found || b[j].touched < index.buckets[k][i].touched {
            found, k, i := true, m, j;
          }
          j := j + 1;
        }
        m := m + 1;
      }
      if found {
        OldestOfAll(index.buckets, index.contents, index.slot, k, i);
      } else {
        EmptyTable(index.buckets, index.contents, index.slot);
      }
    }

    method EvictOldest() returns (ok: bool, ghost victim: nat)
      requires Valid()
      modifies `count, index
      ensures Valid() && ok == (old(index.contents) != map[])
      ensures ok ==> IsOldest(old(index.contents), victim) && index.contents == old(index.contents) - {victim}
      ensures ok ==> |index.contents| == |old(index.contents)| - 1
      ensures !ok ==> index.contents == old(index.contents)
    {
      var k, i;
      ok, k, i := FindOldest();
      victim := 0;
      if ok {
        victim := index.buckets[k][i].pid;
        index.Remove(k, i);
        count := count - 1;
      }
    }

    /** The entry for `pid`, created if need be; null when memory runs out. */
    method GetOrCreate(pid: nat, now: nat, allocOk: bool) returns (ok: bool, ghost victim: Option<nat>)
      requires Valid()
      modifies this, index
      ensures Valid() && Touched(old(index.contents), index.contents, pid, now, allocOk, victim)
      ensures ok == (pid in index.contents)
    {
      victim := None;
      var i;
      ok, i := index.Find(pid);
      if ok {
        index.Replace(index.slot(pid), i, index.buckets[index.slot(pid)][i].(touched := now));
        return;
      }
      if count >= MAX_ENTRIES {
        sweepSoon := true;
        var evicted;
        ghost var p;
        evicted, p := EvictOldest();
        if !evicted {
          assert false;
          return;
        }
        victim := Some(p);
      }
      if !allocOk {
        return false, victim;
      }
      index.Insert(Blank(pid, now));
      count := count + 1;
      ok := true;
    }

    /** The exec notification. */
    method RecordExec(pid: nat, exec: string, trusted: bool, start: nat, now: nat, allocOk: bool)
      returns (ghost mid: Contents, ghost victim: Option<nat>)
      requires Valid()
      modifies this, index
      ensures Valid() && Touched(old(index.contents), mid, pid, now, allocOk, victim)
      ensures index.contents == if pid in mid then mid[pid := Execed(mid[pid], exec, trusted, start)] else mid
      ensures Does(old(index.contents), index.contents, Exec(pid, exec, trusted, start, now, allocOk))
    {
      ghost var before := index.contents;
      var ok, i;
      ok, victim := GetOrCreate(pid, now, allocOk);
      mid := index.contents;
      if ok {
        ok, i := index.Find(pid);
        var e := index.buckets[index.slot(pid)][i];
        e := e.(exec := exec, trusted := trusted);
        if e.start != start {
          e := e.(start := start, opens := [], renames := []);
        }
        index.Replace(index.slot(pid), i, e);
      }
      MakesOperation(before, mid, index.contents, Exec(pid, exec, trusted, start, now, allocOk), victim);
    }

    /** The volume count of a write-intent open. */
    method CountOpen(pid: nat, hash: nat, now: nat, w: nat, noise: bool, allocOk: bool)
      returns (rapid: bool, ghost mid: Contents, ghost victim: Option<nat>)
      requires Valid()
      modifies this, index
      ensures Valid() && Touched(old(index.contents), mid, pid, now, allocOk, victim)
      ensures index.contents == if Counted(mid, pid, noise) then mid[pid := Opened(mid[pid], hash, now)] else mid
      ensures Does(old(index.contents), index.contents, Open(pid, hash, noise, now, allocOk))
      ensures rapid == TooManyOpens(mid, pid, hash, noise, now, w)
    {
      ghost var before := index.contents;
      var ok;
      ok, victim := GetOrCreate(pid, now, allocOk);
      mid := index.contents;
      rapid := NoteOpen(pid, hash, now, w, noise);
      OpenFollowed(mid, pid, hash, noise, now, allocOk);
      MakesOperation(before, mid, index.contents, Open(pid, hash, noise, now, allocOk), victim);
    }

    /** A write-intent open. `w` is the width of the write window in ticks. The entry stands for its
        ring by the notes made since the ring was emptied; what the ring answers to them is
        `RingReturn`, which `SlidingWindow.Ring.NoteHash` proves of the arrays and cursors. */
    method CheckOpen(pid: nat, hash: nat, now: nat, w: nat, sensitive: bool, noise: bool, allocOk: bool)
      returns (kill: Option<Reason>, ghost mid: Contents, ghost victim: Option<nat>)
      requires Valid()
      modifies this, index
      ensures Valid() && Touched(old(index.contents), mid, pid, now, allocOk, victim)
      ensures index.contents == if Counted(mid, pid, noise) then mid[pid := Opened(mid[pid], hash, now)] else mid
      ensures Does(old(index.contents), index.contents, Open(pid, hash, noise, now, allocOk))
      ensures kill == Answer(mid, Open(pid, hash, noise, now, allocOk), sensitive, w)
    {
      var rapid;
      rapid, mid, victim := CountOpen(pid, hash, now, w, noise, allocOk);
      kill := if sensitive then Some(SensitivePath) else if rapid then Some(RapidWrites) else None;
    }

    /** Notes the open in the entry, if there is one and it counts. */
    method NoteOpen(pid: nat, hash: nat, now: nat, w: nat, noise: bool) returns (rapid: bool)
      requires Valid()
      modifies index
      ensures Valid()
      ensures var c := old(index.contents);
        && index.contents == (if Counted(c, pid, noise) then c[pid := Opened(c[pid], hash, now)] else c)
        && rapid == TooManyOpens(c, pid, hash, noise, now, w)
    {
      var found, i := index.Find(pid);
      if !found {
        return false;
      }
      var e := index.buckets[index.slot(pid)][i];
      if e.trusted || noise {
        return false;
      }
      e := Opened(e, hash, now);
      index.Replace(index.slot(pid), i, e);
      assert index.contents.Keys == old(index.contents).Keys && |index.contents| == |index.contents.Keys|;
      assert |old(index.contents)| == |old(index.contents).Keys|;
      rapid := Rapid(e.opens, w);
    }

    /** Notes the rename in the entry, if there is one and it counts. */
    method NoteRename(pid: nat, hash: nat, now: nat, w: nat, noise: bool) returns (rapid: bool)
      requires Valid()
      modifies index
      ensures Valid()
      ensures var c := old(index.contents);
        && index.contents == (if Counted(c, pid, noise) then c[pid := Renamed(c[pid], hash, now)] else c)
        && rapid == TooManyRenames(c, pid, hash, noise, now, w)
    {
      var found, i := index.Find(pid);
      if !found {
        return false;
      }
      var e := index.buckets[index.slot(pid)][i];
      if e.trusted || noise {
        return false;
      }
      e := Renamed(e, hash, now);
      index.Replace(index.slot(pid), i, e);
      assert index.contents.Keys == old(index.contents).Keys && |index.contents| == |index.contents.Keys|;
      assert |old(index.contents)| == |old(index.contents).Keys|;
      rapid := RapidRenames(e.renames, w);
    }

    /** The volume count of a rename that appends an extension. */
    method CountRename(pid: nat, hash: nat, now: nat, w: nat, noise: bool, allocOk: bool)
      returns (rapid: bool, ghost mid: Contents, ghost victim: Option<nat>)
      requires Valid()
      modifies this, index
      ensures Valid() && Touched(old(index.contents), mid, pid, now, allocOk, victim)
      ensures index.contents == if Counted(mid, pid, noise) then mid[pid := Renamed(mid[pid], hash, now)] else mid
      ensures Does(old(index.contents), index.contents, Rename(pid, hash, noise, now, allocOk))
      ensures rapid == TooManyRenames(mid, pid, hash, noise, now, w)
    {
      ghost var before := index.contents;
      var ok;
      ok, victim := GetOrCreate(pid, now, allocOk);
      mid := index.contents;
      rapid := NoteRename(pid, hash, now, w, noise);
      RenameFollowed(mid, pid, hash, noise, now, allocOk);
      MakesOperation(before, mid, index.contents, Rename(pid, hash, noise, now, allocOk), victim);
    }

    /** A rename. `append` says that the new name is the old one with an extension appended; only then
        is the table looked at. `noise` covers the path tests on both names. */
    method CheckRename(pid: nat, hash: nat, now: nat, w: nat, sensitive: bool, append: bool, noise: bool, allocOk: bool)
      returns (kill: Option<Reason>, ghost mid: Contents, ghost victim: Option<nat>)
      requires Valid()
      modifies this, index
      ensures Valid() && (!append ==> index.contents == old(index.contents))
      ensures append ==> Touched(old(index.contents), mid, pid, now, allocOk, victim)
      ensures append ==> Does(old(index.contents), index.contents, Rename(pid, hash, noise, now, allocOk))
      ensures append ==>
        index.contents == if Counted(mid, pid, noise) then mid[pid := Renamed(mid[pid], hash, now)] else mid
      ensures append ==> kill == Answer(mid, Rename(pid, hash, noise, now, allocOk), sensitive, w)
      ensures !append ==> kill == if sensitive then Some(SensitivePath) else None
    {
      var rapid := false;
      mid, victim := index.contents, None;
      if append {
        rapid, mid, victim := CountRename(pid, hash, now, w, noise, allocOk);
      }
      kill := if sensitive then Some(SensitivePath) else if rapid then Some(RapidRenaming) else None;
    }

    /** The sweep of `was` has dealt with `done`, which holds all entries before position (k, i). */
    ghost predicate SweptTo(was: Contents, live: map<nat, nat>, done: set<nat>, k: nat, i: nat)
      reads this, index
    {
      && index.Valid() && index.key == PidOf
      && Sweeping(was, index.contents, live, done) && DoneBefore(index.buckets, done, k, i)
    }

    /** One step of the sweep: frees the entry at (k, i) or brings it up to date. */
    method SweepAt(k: nat, i: nat, live: map<nat, nat>, ghost was: Contents, ghost before: set<nat>)
      returns (dead: bool, ghost done: set<nat>)
      requires SweptTo(was, live, before, k, i) && k < |index.buckets| && i < |index.buckets[k]|
      modifies index
      ensures SweptTo(was, live, done, k, if dead then i else i + 1) && |index.buckets| == |old(index.buckets)|
      ensures |index.buckets[k]| == |old(index.buckets)[k]| - (if dead then 1 else 0)
      ensures |index.contents| == |old(index.contents)| - (if dead then 1 else 0)
    {
      var e := index.buckets[k][i];
      assert Holds(index.buckets[k], k, index.contents, PidOf, index.slot) && e in index.buckets[k];
      SweepOne(was, index.contents, live, before, e.pid);
      done := before + {e.pid};
      dead := e.pid !in live;
      if dead {
        DoneDrop(index.buckets, before, k, i);
        index.Remove(k, i);
      } else {
        if e.start != 0 && e.start != live[e.pid] {
          e := e.(start := live[e.pid], exec := "", trusted := false, opens := [], renames := []);
        }
        DoneSet(index.buckets, before, k, i, e);
        Seqs.PutSize(index.contents, e.pid, e);
        index.Replace(k, i, e);
      }
    }

    method SweepBucket(k: nat, live: map<nat, nat>, ghost was: Contents, ghost before: set<nat>)
      returns (removed: nat, ghost done: set<nat>)
      requires SweptTo(was, live, before, k, 0) && k < |index.buckets|
      modifies index
      ensures SweptTo(was, live, done, k + 1, 0) && |index.buckets| == |old(index.buckets)|
      ensures removed + |index.contents| == |old(index.contents)|
    {
      var i := 0;
      removed, done := 0, before;
      while i < |index.buckets[k]|
        invariant k < |index.buckets| == |old(index.buckets)| && i <= |index.buckets[k]|
        invariant SweptTo(was, live, done, k, i)
        invariant removed + |index.contents| == |old(index.contents)|
        decreases |index.buckets[k]| - i
      {
        var dead;
        dead, done := SweepAt(k, i, live, was, done);
        if dead {
          removed := removed + 1;
        } else {
          i := i + 1;
        }
      }
      NextBucket(index.buckets, done, k, i);
    }

    /** The periodic sweep; `live` gives the start time of every pid that still has a task. */
    method SweepDead(live: map<nat, nat>)
      requires Valid()
      modifies this, index
      ensures Valid() && Does(old(index.contents), index.contents, SweepOp(live))
    {
      var removed: nat, k: nat := 0, 0;
      ghost var was, done := index.contents, {};
      while k < |index.buckets|
        invariant SweptTo(was, live, done, k, 0) && k <= |index.buckets|
        invariant count == old(count) && removed + |index.contents| == count
      {
        var n;
        n, done := SweepBucket(k, live, was, done);
        removed := removed + n;
        k := k + 1;
      }
      count := count - removed;
      sweepSoon := false;
      SweepEnds(index.buckets, was, index.contents, index.slot, live, done);
    }
  }

  lemma {:induction false} OldestOfAll(buckets: seq<seq<Entry>>, c: Contents, slot: nat -> nat, k: nat, i: nat)
    requires Shape(buckets, c, PidOf, slot) && k < |buckets| && i < |buckets[k]|
    requires forall x, e :: 0 <= x < |buckets| && e in buckets[x] ==> buckets[k][i].touched <= e.touched
    ensures IsOldest(c, buckets[k][i].pid)
  {
    assert buckets[k][i] in buckets[k] && Holds(buckets[k], k, c, PidOf, slot);
    forall q | q in c ensures buckets[k][i].touched <= c[q].touched {
      assert Holds(buckets[slot(q)], slot(q), c, PidOf, slot);
      assert c[q] in buckets[slot(q)];
    }
  }

  lemma {:induction false} EmptyTable(buckets: seq<seq<Entry>>, c: Contents, slot: nat -> nat)
    requires Shape(buckets, c, PidOf, slot)
    ensures (forall x :: 0 <= x < |buckets| ==> buckets[x] == []) ==> c == map[]
  {
    if q :| q in c {
      assert Holds(buckets[slot(q)], slot(q), c, PidOf, slot);
      assert c[q] in buckets[slot(q)];
    } else {
      assert c == map[];
    }
  }

  // ----- the sweep

  /** Midway through the sweep of `c`: the pids in `done` have been dealt with. */
  ghost predicate Sweeping(c: Contents, d: Contents, live: map<nat, nat>, done: set<nat>) {
    && d.Keys <= c.Keys && done <= c.Keys
    && forall p :: p in c ==>
      if p in done then (p in d <==> p in live) && (p in d ==> d[p] == Sweep(c[p], live[p]))
      else p in d && d[p] == c[p]
  }

  lemma {:induction false} SweepTwice(e: Entry, start: nat)
    ensures Sweep(Sweep(e, start), start) == Sweep(e, start)
  {
  }

  lemma {:induction false} SweepOne(c: Contents, d: Contents, live: map<nat, nat>, done: set<nat>, p: nat)
    requires Sweeping(c, d, live, done) && p in d
    ensures p in live ==> Sweeping(c, d[p := Sweep(d[p], live[p])], live, done + {p})
    ensures p !in live ==> Sweeping(c, d - {p}, live, done + {p})
  {
    if p in live {
      SweepTwice(c[p], live[p]);
    }
  }

  /** Every entry before position (k, i) has been dealt with. */
  ghost predicate DoneBefore(buckets: seq<seq<Entry>>, done: set<nat>, k: nat, i: nat) {
    && (forall m, e :: 0 <= m < k && m < |buckets| && e in buckets[m] ==> e.pid in done)
    && (k < |buckets| ==> forall j :: 0 <= j < i && j < |buckets[k]| ==> buckets[k][j].pid in done)
  }

  lemma {:induction false} DoneDrop(buckets: seq<seq<Entry>>, done: set<nat>, k: nat, i: nat)
    requires k < |buckets| && i < |buckets[k]| && DoneBefore(buckets, done, k, i)
    ensures var b := buckets[k];
      DoneBefore(buckets[k := b[..i] + b[i + 1..]], done + {b[i].pid}, k, i)
  {
  }

  lemma {:induction false} DoneSet(buckets: seq<seq<Entry>>, done: set<nat>, k: nat, i: nat, e: Entry)
    requires k < |buckets| && i < |buckets[k]| && DoneBefore(buckets, done, k, i) && e.pid == buckets[k][i].pid
    ensures DoneBefore(buckets[k := buckets[k][i := e]], done + {e.pid}, k, i + 1)
  {
  }

  lemma {:induction false} NextBucket(buckets: seq<seq<Entry>>, done: set<nat>, k: nat, i: nat)
    requires k < |buckets| && DoneBefore(buckets, done, k, i) && i >= |buckets[k]|
    ensures DoneBefore(buckets, done, k + 1, 0)
  {
  }

  lemma {:induction false} SweepEnds(buckets: seq<seq<Entry>>, c: Contents, d: Contents, slot: nat -> nat,
                                     live: map<nat, nat>, done: set<nat>)
    requires Shape(buckets, d, PidOf, slot) && Sweeping(c, d, live, done)
    requires DoneBefore(buckets, done, |buckets|, 0)
    ensures Swept(c, d, live)
  {
    forall p | p in d ensures p in done {
      assert Holds(buckets[slot(p)], slot(p), d, PidOf, slot);
      assert d[p] in buckets[slot(p)];
    }
    forall p ensures p in d.Keys <==> p in c.Keys * live.Keys {
    }
  }

  // ----- least recently touched

  datatype Touch = Touch(pid: nat, now: nat)

  function Stamps(c: Contents): (t: map<nat, nat>) {
    map p | p in c :: c[p].touched
  }

  /** A lookup seen through the stamps alone: an uncapped hit or insert, or an insert that
      displaces some entry with the oldest stamp. */
  ghost predicate Step(t: map<nat, nat>, u: map<nat, nat>, e: Touch, cap: nat) {
    if e.pid in t || |t| < cap then u == t[e.pid := e.now]
    else exists v :: v in t && (forall q :: q in t ==> t[v] <= t[q]) && u == (t - {v})[e.pid := e.now]
  }

  /** When memory does not run out, every table lookup is such a step. */
  lemma {:induction false} TouchIsStep(c: Contents, d: Contents, pid: nat, now: nat, victim: Option<nat>)
    requires Touched(c, d, pid, now, true, victim)
    ensures Step(Stamps(c), Stamps(d), Touch(pid, now), MAX_ENTRIES)
  {
    var t, u := Stamps(c), Stamps(d);
    assert t.Keys == c.Keys;
    assert |t| == |t.Keys| && |c| == |c.Keys|;
    if victim.Some? {
      var v := victim.value;
      assert forall q :: q in t ==> t[v] <= t[q];
      assert u == (t - {v})[pid := now];
    } else {
      assert u == t[pid := now];
    }
  }

  /** Every touched pid with the stamp of its last touch. */
  function LastTouches(events: seq<Touch>): map<nat, nat> {
    if events == [] then map[] else
    var e := events[|events| - 1];
    LastTouches(events[..|events| - 1])[e.pid := e.now]
  }

  /** The pids whose last touch is later than that of `p`. */
  function TouchedAfter(last: map<nat, nat>, p: nat): set<nat>
    requires p in last
  {
    set q | q in last && last[q] > last[p]
  }

  /** The others whose last touch is no earlier than that of `p`. */
  function TouchedSince(last: map<nat, nat>, p: nat): set<nat>
    requires p in last
  {
    set q | q in last && q != p && last[q] >= last[p]
  }

  ghost predicate Increasing(events: seq<Touch>) {
    forall i, j :: 0 <= i < j < |events| ==> events[i].now < events[j].now
  }

  ghost predicate NonDecreasing(events: seq<Touch>) {
    forall i, j :: 0 <= i < j < |events| ==> events[i].now <= events[j].now
  }

  ghost predicate Run(tables: seq<map<nat, nat>>, events: seq<Touch>, cap: nat) {
    && |tables| == |events| + 1 && tables[0] == map[]
    && forall i :: 0 <= i < |events| ==> Step(tables[i], tables[i + 1], events[i], cap)
  }

  ghost predicate Injective(last: map<nat, nat>) {
    forall p, q :: p in last && q in last && p != q ==> last[p] != last[q]
  }

  /** What the table is after any such run. */
  ghost predicate Recalls(t: map<nat, nat>, last: map<nat, nat>, cap: nat) {
    && |t| <= cap
    && (forall p :: p in t ==> p in last && last[p] == t[p])
    && (forall p :: p in last && p !in t ==> |t| == cap && forall q :: q in t ==> t[q] >= last[p])
  }

  lemma {:induction false} RecallsStep(t: map<nat, nat>, u: map<nat, nat>, last: map<nat, nat>, e: Touch, cap: nat)
    requires cap > 0 && Recalls(t, last, cap) && Step(t, u, e, cap)
    requires forall p :: p in last ==> last[p] <= e.now
    ensures Recalls(u, last[e.pid := e.now], cap)
  {
    if e.pid in t || |t| < cap {
      Seqs.PutSize(t, e.pid, e.now);
    } else {
      var v :| v in t && (forall q :: q in t ==> t[v] <= t[q]) && u == (t - {v})[e.pid := e.now];
      EvictSize(t, v, e);
    }
  }

  lemma {:induction false} EvictSize(t: map<nat, nat>, v: nat, e: Touch)
    requires v in t && e.pid !in t
    ensures |(t - {v})[e.pid := e.now]| == |t|
  {
    assert t == (t - {v})[v := t[v]];
    Seqs.PutSize(t - {v}, v, t[v]);
    Seqs.PutSize(t - {v}, e.pid, e.now);
  }

  lemma {:induction false} LastTouchesBound(events: seq<Touch>, now: nat)
    requires forall i :: 0 <= i < |events| ==> events[i].now <= now
    ensures forall p :: p in LastTouches(events) ==> LastTouches(events)[p] <= now
  {
    if events != [] {
      LastTouchesBound(events[..|events| - 1], now);
    }
  }

  /** Increasing stamps make the last touches of different pids differ. */
  lemma {:induction false} LastTouchesDiffer(events: seq<Touch>)
    requires Increasing(events)
    ensures Injective(LastTouches(events))
  {
    var n := |events|;
    if n > 0 {
      var before := events[..n - 1];
      LastTouchesDiffer(before);
      if n > 1 {
        LastTouchesBound(before, events[n - 1].now - 1);
      }
    }
  }

  lemma {:induction false} RunRecalls(tables: seq<map<nat, nat>>, events: seq<Touch>, cap: nat)
    requires cap > 0 && Run(tables, events, cap) && NonDecreasing(events)
    ensures Recalls(tables[|events|], LastTouches(events), cap)
  {
    var n := |events|;
    if n > 0 {
      RunRecalls(tables[..n], events[..n - 1], cap);
      LastTouchesBound(events[..n - 1], events[n - 1].now);
      RecallsStep(tables[n - 1], tables[n], LastTouches(events[..n - 1]), events[n - 1], cap);
    }
  }

  /** Any run without failures or sweeps, equal stamps allowed: a pid in the table has the stamp of
      its last touch and fewer than `cap` were last touched later; a pid that was evicted has at
      least `cap` others last touched no earlier. */
  lemma {:induction false} RecentlyTouched(tables: seq<map<nat, nat>>, events: seq<Touch>, cap: nat, p: nat)
    requires cap > 0 && Run(tables, events, cap) && NonDecreasing(events)
    ensures var t, last := tables[|events|], LastTouches(events);
      && (p in t ==> p in last && t[p] == last[p] && |TouchedAfter(last, p)| < cap)
      && (p in last && p !in t ==> |TouchedSince(last, p)| >= cap)
  {
    var t, last := tables[|events|], LastTouches(events);
    RunRecalls(tables, events, cap);
    if p in t {
      Seqs.SubsetSize(TouchedAfter(last, p), t.Keys - {p});
    } else if p in last {
      Seqs.SubsetSize(t.Keys, TouchedSince(last, p));
    }
  }

  /** With distinct stamps that decides the table: a pid is there if and only if fewer than `cap`
      pids were last touched after it. */
  lemma {:induction false} MostRecentlyTouched(tables: seq<map<nat, nat>>, events: seq<Touch>, cap: nat, p: nat)
    requires cap > 0 && Run(tables, events, cap) && Increasing(events)
    ensures var t, last := tables[|events|], LastTouches(events);
      && (p in t <==> p in last && |TouchedAfter(last, p)| < cap)
      && (p in t ==> t[p] == last[p])
  {
    var last := LastTouches(events);
    RecentlyTouched(tables, events, cap, p);
    LastTouchesDiffer(events);
    if p in last {
      assert TouchedSince(last, p) == TouchedAfter(last, p);
    }
  }
}
