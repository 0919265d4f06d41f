/** Runs of the per-process table: what happens to one process while others come and go. */
module BehaviorRuns {
  import opened BehaviorTable
  import opened Options
  import Seqs
  import SlidingWindow

  ghost predicate TableRun(states: seq<Contents>, ops: seq<Op>) {
    && |states| == |ops| + 1
    && forall i :: 0 <= i < |ops| ==> Does(states[i], states[i + 1], ops[i])
  }

  // ----- one process

  /** The operation is not the sign of another process under this pid: an exec carries the
      recorded start time, and the sweep finds that start time or none was recorded. */
  predicate SameProcess(op: Op, pid: nat, start: nat) {
    match op
    case Exec(p, _, _, s, _, _) => p == pid ==> s == start
    case SweepOp(live) => start == 0 || (pid in live ==> live[pid] == start)
    case _ => true
  }

  /** The two rings of an entry. */
  datatype Ring = Opens | Renames

  function RingOf(e: Entry, ring: Ring): seq<SlidingWindow.Note> {
    if ring.Opens? then e.opens else e.renames
  }

  /** The note an operation adds to a ring of `pid`. */
  function NotedBy(c: Contents, op: Op, pid: nat, ring: Ring): seq<SlidingWindow.Note> {
    match op
    case Open(p, hash, noise, now, _) =>
      if ring.Opens? && p == pid && Counted(c, pid, noise) then [SlidingWindow.Note(hash, now)] else []
    case Rename(p, hash, noise, now, _) =>
      if ring.Renames? && p == pid && Counted(c, pid, noise) then [SlidingWindow.Note(hash, now)] else []
    case _ => []
  }

  function Pieces(states: seq<Contents>, ops: seq<Op>, pid: nat, ring: Ring): (p: seq<seq<SlidingWindow.Note>>)
    requires |states| == |ops| + 1
    ensures |p| == |ops| && forall k :: 0 <= k < |ops| ==> p[k] == NotedBy(states[k], ops[k], pid, ring)
  {
    seq(|ops|, k requires 0 <= k < |ops| => NotedBy(states[k], ops[k], pid, ring))
  }

  /** What a run adds to a ring, operation by operation. */
  function Noted(states: seq<Contents>, ops: seq<Op>, pid: nat, ring: Ring): seq<SlidingWindow.Note>
    requires |states| == |ops| + 1
  {
    Seqs.Flatten(Pieces(states, ops, pid, ring))
  }

  lemma {:induction false} LookupKeeps(c: Contents, mid: Contents, op: Op, pid: nat, victim: Option<nat>)
    requires !op.SweepOp? && Touched(c, mid, op.pid, op.now, op.allocOk, victim)
    requires pid in c && pid in Followed(mid, op)
    ensures pid in mid && mid[pid] == c[pid].(touched := mid[pid].touched)
  {
  }

  lemma {:induction false} FollowedKeeps(mid: Contents, op: Op, pid: nat, ring: Ring)
    requires !op.SweepOp? && pid in mid && SameProcess(op, pid, mid[pid].start)
    ensures pid in Followed(mid, op) && Followed(mid, op)[pid].start == mid[pid].start
    ensures RingOf(Followed(mid, op)[pid], ring) == RingOf(mid[pid], ring) + NotedBy(mid, op, pid, ring)
  {
  }

  lemma {:induction false} SweepKeeps(c: Contents, d: Contents, op: Op, pid: nat)
    requires op.SweepOp? && Does(c, d, op) && pid in c && pid in d && SameProcess(op, pid, c[pid].start)
    ensures d[pid] == c[pid]
  {
  }

  lemma {:induction false} StepKeeps(c: Contents, d: Contents, op: Op, pid: nat, ring: Ring)
    requires Does(c, d, op) && pid in c && pid in d && SameProcess(op, pid, c[pid].start)
    ensures d[pid].start == c[pid].start
    ensures RingOf(d[pid], ring) == RingOf(c[pid], ring) + NotedBy(c, op, pid, ring)
  {
    if op.SweepOp? {
      SweepKeeps(c, d, op, pid);
    } else {
      var mid, victim :| Touched(c, mid, op.pid, op.now, op.allocOk, victim) && d == Followed(mid, op);
      LookupKeeps(c, mid, op, pid, victim);
      FollowedKeeps(mid, op, pid, ring);
    }
  }

  /** The process stays tracked and stays the same through the run. */
  ghost predicate Stays(states: seq<Contents>, ops: seq<Op>, pid: nat, start: nat) {
    && (forall i :: 0 <= i < |states| ==> pid in states[i])
    && (forall i :: 0 <= i < |ops| ==> SameProcess(ops[i], pid, start))
  }

  lemma {:induction false} StartStays(states: seq<Contents>, ops: seq<Op>, pid: nat, i: nat)
    requires TableRun(states, ops) && pid in states[0] && Stays(states, ops, pid, states[0][pid].start)
    requires i <= |ops|
    ensures states[i][pid].start == states[0][pid].start
  {
    if i > 0 {
      StartStays(states, ops, pid, i - 1);
      StepKeeps(states[i - 1], states[i], ops[i - 1], pid, Opens);
    }
  }

  function RingsOf(states: seq<Contents>, pid: nat, ring: Ring): (r: seq<seq<SlidingWindow.Note>>)
    requires forall k :: 0 <= k < |states| ==> pid in states[k]
    ensures |r| == |states| && forall k :: 0 <= k < |states| ==> r[k] == RingOf(states[k][pid], ring)
  {
    seq(|states|, k requires 0 <= k < |states| => RingOf(states[k][pid], ring))
  }

  /** While a pid is neither evicted nor reused, no operation of its own or of any other process
      takes a note away from its rings: they grow by exactly the opens that count, and by no more. */
  lemma {:induction false} RingsOnlyGrow(states: seq<Contents>, ops: seq<Op>, pid: nat, ring: Ring)
    requires TableRun(states, ops) && pid in states[0] && Stays(states, ops, pid, states[0][pid].start)
    ensures var n := |ops|;
      && states[n][pid].start == states[0][pid].start
      && RingOf(states[n][pid], ring) == RingOf(states[0][pid], ring) + Noted(states, ops, pid, ring)
  {
    var n, rings, pieces := |ops|, RingsOf(states, pid, ring), Pieces(states, ops, pid, ring);
    StartStays(states, ops, pid, n);
    forall k | 0 <= k < n ensures rings[k + 1] == rings[k] + pieces[k] {
      StartStays(states, ops, pid, k);
      StepKeeps(states[k], states[k + 1], ops[k], pid, ring);
    }
    Seqs.Accumulates(rings, pieces, n);
    assert pieces[..n] == pieces;
  }

  /** The first operation that shows another process under the pid empties both rings. */
  lemma {:induction false} ReuseStartsClean(c: Contents, d: Contents, op: Op, pid: nat)
    requires Does(c, d, op) && pid in c && pid in d && !SameProcess(op, pid, c[pid].start)
    ensures d[pid].opens == [] && d[pid].renames == [] && d[pid].start != c[pid].start
  {
    if !op.SweepOp? {
      var mid, victim :| Touched(c, mid, op.pid, op.now, op.allocOk, victim) && d == Followed(mid, op);
      LookupKeeps(c, mid, op, pid, victim);
    }
  }

  /** The threshold of a ring, above which its answer is a reason to kill. */
  function Threshold(ring: Ring): nat {
    if ring.Opens? then OPEN_THRESHOLD else RENAME_THRESHOLD
  }

  /** A burst is reported across a run, by either ring: what the process noted before and during it is
      judged as one history, whatever happens to other entries meanwhile. */
  lemma {:induction false} BurstAcrossRun(states: seq<Contents>, ops: seq<Op>, pid: nat, ring: Ring, w: nat,
                                          idx: seq<nat>)
    requires TableRun(states, ops) && pid in states[0] && Stays(states, ops, pid, states[0][pid].start)
    requires var notes := RingOf(states[0][pid], ring) + Noted(states, ops, pid, ring);
      && SlidingWindow.NonDecreasing(notes) && |idx| == Threshold(ring) + 1 && SlidingWindow.Burst(notes, w, idx)
    ensures var notes := RingOf(states[|ops|][pid], ring);
      notes != [] && if ring.Opens? then Rapid(notes, w) else RapidRenames(notes, w)
  {
    RingsOnlyGrow(states, ops, pid, ring);
    SlidingWindow.BurstIsReported(RingOf(states[|ops|][pid], ring), Threshold(ring), w, idx);
  }

  // ----- which processes are tracked

  function TouchesOf(ops: seq<Op>): (t: seq<Touch>)
    requires forall i :: 0 <= i < |ops| ==> !ops[i].SweepOp?
    ensures |t| == |ops| && forall i :: 0 <= i < |ops| ==> t[i] == Touch(ops[i].pid, ops[i].now)
  {
    seq(|ops|, i requires 0 <= i < |ops| => Touch(ops[i].pid, ops[i].now))
  }

  function AllStamps(states: seq<Contents>): (t: seq<map<nat, nat>>)
    ensures |t| == |states| && forall i :: 0 <= i < |states| ==> t[i] == Stamps(states[i])
  {
    seq(|states|, i requires 0 <= i < |states| => Stamps(states[i]))
  }

  /** Lookups that never run out of memory, and no sweep. */
  predicate OnlyLookups(ops: seq<Op>) {
    forall i :: 0 <= i < |ops| ==> !ops[i].SweepOp? && ops[i].allocOk
  }

  lemma {:induction false} StampsFollowed(mid: Contents, op: Op)
    requires !op.SweepOp?
    ensures Stamps(Followed(mid, op)) == Stamps(mid)
  {
  }

  lemma {:induction false} DoesIsStep(c: Contents, d: Contents, op: Op)
    requires Does(c, d, op) && !op.SweepOp? && op.allocOk
    ensures Step(Stamps(c), Stamps(d), Touch(op.pid, op.now), MAX_ENTRIES)
  {
    var mid, victim :| Touched(c, mid, op.pid, op.now, op.allocOk, victim) && d == Followed(mid, op);
    TouchIsStep(c, mid, op.pid, op.now, victim);
    StampsFollowed(mid, op);
  }

  /** From the empty table, after any operations but sweeps: a tracked pid has the stamp of its last
      operation and fewer than 8192 others had a later one; an evicted pid has at least 8192 others
      with one no earlier. With distinct stamps that decides which pids are tracked. */
  lemma {:induction false} TableRecalls(states: seq<Contents>, ops: seq<Op>, p: nat)
    requires TableRun(states, ops) && states[0] == map[] && OnlyLookups(ops) && NonDecreasing(TouchesOf(ops))
    ensures var c, last := states[|ops|], LastTouches(TouchesOf(ops));
      && (p in c ==> p in last && c[p].touched == last[p] && |TouchedAfter(last, p)| < MAX_ENTRIES)
      && (p in last && p !in c ==> |TouchedSince(last, p)| >= MAX_ENTRIES)
    ensures Increasing(TouchesOf(ops)) ==> var c, last := states[|ops|], LastTouches(TouchesOf(ops));
      p in c <==> p in last && |TouchedAfter(last, p)| < MAX_ENTRIES
  {
    var tables, touches := AllStamps(states), TouchesOf(ops);
    assert Run(tables, touches, MAX_ENTRIES) by {
      assert Stamps(map[]) == map[];
      forall i | 0 <= i < |touches| ensures Step(tables[i], tables[i + 1], touches[i], MAX_ENTRIES) {
        DoesIsStep(states[i], states[i + 1], ops[i]);
      }
    }
    RecentlyTouched(tables, touches, MAX_ENTRIES, p);
    if Increasing(touches) {
      MostRecentlyTouched(tables, touches, MAX_ENTRIES, p);
    }
  }
}
