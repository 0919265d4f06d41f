/** What the detector decides about one process, told from the operations alone: which opens and
    renames are noted, and when one of them is a reason to kill. */
module BehaviorTrust {
  import opened BehaviorTable
  import opened BehaviorRuns
  import opened Options
  import Seqs
  import SlidingWindow

  predicate IsExecOf(op: Op, pid: nat) {
    op.Exec? && op.pid == pid
  }

  /** Whether the last exec of pid in the run was trusted; `initially` if there is none. */
  function LastTrust(ops: seq<Op>, pid: nat, initially: bool): bool {
    if ops == [] then initially
    else
      var op := ops[|ops| - 1];
      if IsExecOf(op, pid) then op.trusted else LastTrust(ops[..|ops| - 1], pid, initially)
  }

  function LastExec(ops: seq<Op>, pid: nat, initially: string): string {
    if ops == [] then initially
    else
      var op := ops[|ops| - 1];
      if IsExecOf(op, pid) then op.exec else LastExec(ops[..|ops| - 1], pid, initially)
  }

  lemma {:induction false} LastIsAt(ops: seq<Op>, pid: nat, trust: bool, exec: string, k: nat)
    requires k < |ops| && IsExecOf(ops[k], pid)
    requires forall j :: k < j < |ops| ==> !IsExecOf(ops[j], pid)
    ensures LastTrust(ops, pid, trust) == ops[k].trusted && LastExec(ops, pid, exec) == ops[k].exec
  {
    if k < |ops| - 1 {
      LastIsAt(ops[..|ops| - 1], pid, trust, exec, k);
    }
  }

  lemma {:induction false} NoneIsLast(ops: seq<Op>, pid: nat, trust: bool, exec: string)
    requires forall j :: 0 <= j < |ops| ==> !IsExecOf(ops[j], pid)
    ensures LastTrust(ops, pid, trust) == trust && LastExec(ops, pid, exec) == exec
  {
    if ops != [] {
      NoneIsLast(ops[..|ops| - 1], pid, trust, exec);
    }
  }

  // ----- what an entry says of its process

  lemma {:induction false} LookupSays(mid: Contents, op: Op, pid: nat)
    requires !op.SweepOp? && pid in mid
    ensures pid in Followed(mid, op)
    ensures var e, f := mid[pid], Followed(mid, op)[pid];
            if IsExecOf(op, pid) then f.trusted == op.trusted && f.exec == op.exec
            else f.trusted == e.trusted && f.exec == e.exec
  {
  }

  lemma {:induction false} StepSays(c: Contents, d: Contents, op: Op, pid: nat)
    requires Does(c, d, op) && pid in c && pid in d && SameProcess(op, pid, c[pid].start)
    ensures if IsExecOf(op, pid) then d[pid].trusted == op.trusted && d[pid].exec == op.exec
            else d[pid].trusted == c[pid].trusted && d[pid].exec == c[pid].exec
  {
    if op.SweepOp? {
      SweepKeeps(c, d, op, pid);
    } else {
      var mid, victim :| Touched(c, mid, op.pid, op.now, op.allocOk, victim) && d == Followed(mid, op);
      LookupKeeps(c, mid, op, pid, victim);
      LookupSays(mid, op, pid);
    }
  }

  /** What one operation of a run makes of the entry. */
  ghost predicate SaysNext(c: Entry, d: Entry, op: Op, pid: nat) {
    if IsExecOf(op, pid) then d.trusted == op.trusted && d.exec == op.exec
    else d.trusted == c.trusted && d.exec == c.exec
  }

  lemma {:induction false} RunSaysNext(states: seq<Contents>, ops: seq<Op>, pid: nat, i: nat)
    requires TableRun(states, ops) && pid in states[0] && Stays(states, ops, pid, states[0][pid].start)
    requires i < |ops|
    ensures SaysNext(states[i][pid], states[i + 1][pid], ops[i], pid)
  {
    StartStays(states, ops, pid, i);
    StepSays(states[i], states[i + 1], ops[i], pid);
  }

  lemma {:induction false} LastAlong(states: seq<Contents>, ops: seq<Op>, pid: nat, i: nat)
    requires |states| == |ops| + 1 && i <= |ops| && forall k :: 0 <= k < |states| ==> pid in states[k]
    requires forall k :: 0 <= k < |ops| ==> SaysNext(states[k][pid], states[k + 1][pid], ops[k], pid)
    ensures var e, f := states[0][pid], states[i][pid];
            f.trusted == LastTrust(ops[..i], pid, e.trusted) && f.exec == LastExec(ops[..i], pid, e.exec)
  {
    if i > 0 {
      LastAlong(states, ops, pid, i - 1);
      assert ops[..i][..i - 1] == ops[..i - 1] && ops[..i][i - 1] == ops[i - 1];
      assert SaysNext(states[i - 1][pid], states[i - 1 + 1][pid], ops[i - 1], pid);
    }
  }

  lemma {:induction false} EntrySaysAt(states: seq<Contents>, ops: seq<Op>, pid: nat, i: nat)
    requires TableRun(states, ops) && pid in states[0] && Stays(states, ops, pid, states[0][pid].start)
    requires i <= |ops|
    ensures var e, f := states[0][pid], states[i][pid];
            f.trusted == LastTrust(ops[..i], pid, e.trusted) && f.exec == LastExec(ops[..i], pid, e.exec)
  {
    forall k | 0 <= k < |ops| ensures SaysNext(states[k][pid], states[k + 1][pid], ops[k], pid) {
      RunSaysNext(states, ops, pid, k);
    }
    LastAlong(states, ops, pid, i);
  }

  /** While a process stays tracked and the same, its entry holds the path and the trust of its last
      exec. */
  lemma {:induction false} EntrySaysLastExec(states: seq<Contents>, ops: seq<Op>, pid: nat)
    requires TableRun(states, ops) && pid in states[0] && Stays(states, ops, pid, states[0][pid].start)
    ensures var e, f := states[0][pid], states[|ops|][pid];
            f.trusted == LastTrust(ops, pid, e.trusted) && f.exec == LastExec(ops, pid, e.exec)
  {
    EntrySaysAt(states, ops, pid, |ops|);
    assert ops[..|ops|] == ops;
  }

  /** A process that comes into the table has the path and trust of its exec, or none if it came in by
      another operation. */
  lemma {:induction false} NewEntrySays(c: Contents, d: Contents, op: Op, pid: nat)
    requires Does(c, d, op) && pid !in c && pid in d
    ensures !op.SweepOp? && op.pid == pid
    ensures if op.Exec? then d[pid].trusted == op.trusted && d[pid].exec == op.exec && d[pid].start == op.start
            else !d[pid].trusted && d[pid].exec == "" && d[pid].start == 0
  {
    if !op.SweepOp? {
      var mid, victim :| Touched(c, mid, op.pid, op.now, op.allocOk, victim) && d == Followed(mid, op);
      LookupSays(mid, op, op.pid);
    }
  }

  /** The first operation that shows another process under the pid leaves nothing of the old one: an
      exec sets path and trust, the sweep clears both; the new start time is recorded and both rings
      are empty. */
  lemma {:induction false} ReusedEntrySays(c: Contents, d: Contents, op: Op, pid: nat)
    requires Does(c, d, op) && pid in c && pid in d && !SameProcess(op, pid, c[pid].start)
    ensures d[pid].opens == [] && d[pid].renames == []
    ensures if op.Exec? then d[pid].trusted == op.trusted && d[pid].exec == op.exec && d[pid].start == op.start
            else op.SweepOp? && !d[pid].trusted && d[pid].exec == "" && pid in op.live && d[pid].start == op.live[pid]
  {
    ReuseStartsClean(c, d, op, pid);
    if !op.SweepOp? {
      var mid, victim :| Touched(c, mid, op.pid, op.now, op.allocOk, victim) && d == Followed(mid, op);
      LookupKeeps(c, mid, op, pid, victim);
    }
  }

  // ----- what is noted

  predicate IsNote(op: Op, pid: nat, ring: Ring) {
    (if ring.Opens? then op.Open? else op.Rename?) && op.pid == pid
  }

  /** The notes a run makes of pid: of every open (or rename) of it whose path is not noise, made while
      its last exec was not trusted. */
  function NotesFrom(ops: seq<Op>, pid: nat, ring: Ring, initially: bool): seq<SlidingWindow.Note> {
    if ops == [] then []
    else
      var front, op := ops[..|ops| - 1], ops[|ops| - 1];
      NotesFrom(front, pid, ring, initially) +
      if IsNote(op, pid, ring) && !op.noise && !LastTrust(front, pid, initially)
      then [SlidingWindow.Note(op.hash, op.now)] else []
  }

  lemma {:induction false} NoteFromOps(c: Contents, front: seq<Op>, op: Op, pid: nat, ring: Ring, initially: bool)
    requires pid in c && c[pid].trusted == LastTrust(front, pid, initially)
    ensures NotedBy(c, op, pid, ring) ==
      if IsNote(op, pid, ring) && !op.noise && !LastTrust(front, pid, initially)
      then [SlidingWindow.Note(op.hash, op.now)] else []
  {
  }

  lemma {:induction false} NotedAlong(pieces: seq<seq<SlidingWindow.Note>>, ops: seq<Op>, pid: nat, ring: Ring,
                                      initially: bool, i: nat)
    requires |pieces| == |ops| && i <= |ops|
    requires forall k :: 0 <= k < |ops| ==>
      pieces[k] == if IsNote(ops[k], pid, ring) && !ops[k].noise && !LastTrust(ops[..k], pid, initially)
                   then [SlidingWindow.Note(ops[k].hash, ops[k].now)] else []
    ensures Seqs.Flatten(pieces[..i]) == NotesFrom(ops[..i], pid, ring, initially)
  {
    if i > 0 {
      NotedAlong(pieces, ops, pid, ring, initially, i - 1);
      assert pieces[..i][..i - 1] == pieces[..i - 1] && ops[..i][..i - 1] == ops[..i - 1];
    }
  }

  lemma {:induction false} NotedFromOps(states: seq<Contents>, ops: seq<Op>, pid: nat, ring: Ring)
    requires TableRun(states, ops) && pid in states[0] && Stays(states, ops, pid, states[0][pid].start)
    ensures Noted(states, ops, pid, ring) == NotesFrom(ops, pid, ring, states[0][pid].trusted)
  {
    var n, t, pieces := |ops|, states[0][pid].trusted, Pieces(states, ops, pid, ring);
    forall k | 0 <= k < n
      ensures pieces[k] == if IsNote(ops[k], pid, ring) && !ops[k].noise && !LastTrust(ops[..k], pid, t)
                           then [SlidingWindow.Note(ops[k].hash, ops[k].now)] else []
    {
      EntrySaysAt(states, ops, pid, k);
      NoteFromOps(states[k], ops[..k], ops[k], pid, ring, t);
    }
    NotedAlong(pieces, ops, pid, ring, t, n);
    assert pieces[..n] == pieces && ops[..n] == ops;
  }

  /** The notes of a process before a run, and those the run makes. */
  function History(e: Entry, ops: seq<Op>, pid: nat, ring: Ring): seq<SlidingWindow.Note> {
    RingOf(e, ring) + NotesFrom(ops, pid, ring, e.trusted)
  }

  /** Its rings hold exactly that, in order. */
  lemma {:induction false} RingsAreHistory(states: seq<Contents>, ops: seq<Op>, pid: nat, ring: Ring)
    requires TableRun(states, ops) && pid in states[0] && Stays(states, ops, pid, states[0][pid].start)
    ensures RingOf(states[|ops|][pid], ring) == History(states[0][pid], ops, pid, ring)
  {
    RingsOnlyGrow(states, ops, pid, ring);
    NotedFromOps(states, ops, pid, ring);
  }

  // ----- what is a reason to kill

  function RingFor(op: Op): Ring {
    if op.Rename? then Renames else Opens
  }

  /** More than 50 opens, or more than 20 renames. */
  function Limit(op: Op): nat {
    if op.Rename? then 20 else 50
  }

  function VolumeReason(op: Op): Reason {
    if op.Rename? then RapidRenaming else RapidWrites
  }

  /** An open or a rename of pid, looked up in `mid`, after a run in which pid stays. */
  ghost predicate AnsweredAfter(states: seq<Contents>, ops: seq<Op>, op: Op, mid: Contents, pid: nat) {
    && TableRun(states, ops) && pid in states[0] && Stays(states, ops, pid, states[0][pid].start)
    && (op.Open? || op.Rename?) && op.pid == pid
    && exists victim :: Touched(states[|ops|], mid, pid, op.now, op.allocOk, victim)
  }

  lemma {:induction false} HistoryNext(e: Entry, ops: seq<Op>, op: Op, pid: nat)
    requires (op.Open? || op.Rename?) && op.pid == pid && !op.noise && !LastTrust(ops, pid, e.trusted)
    ensures History(e, ops + [op], pid, RingFor(op))
         == History(e, ops, pid, RingFor(op)) + [SlidingWindow.Note(op.hash, op.now)]
  {
    assert (ops + [op])[..|ops|] == ops;
  }

  lemma {:induction false} AnswerOfEntry(mid: Contents, op: Op, sensitive: bool, w: nat)
    requires (op.Open? || op.Rename?) && op.pid in mid
    ensures var notes := RingOf(mid[op.pid], RingFor(op)) + [SlidingWindow.Note(op.hash, op.now)];
      Answer(mid, op, sensitive, w) == if sensitive then Some(SensitivePath)
        else if !op.noise && !mid[op.pid].trusted && SlidingWindow.RingReturn(notes, Limit(op), w) > Limit(op)
        then Some(VolumeReason(op)) else None
  {
  }

  /** The answer follows from the operations: a sensitive path is always a reason; otherwise there is
      one if and only if the path is not noise, the last exec was not trusted, and the ring counts more
      than the limit in what was noted of the process. */
  lemma {:induction false} AnswerFromOps(states: seq<Contents>, ops: seq<Op>, op: Op, mid: Contents, pid: nat,
                                         sensitive: bool, w: nat)
    requires AnsweredAfter(states, ops, op, mid, pid)
    ensures var e := states[0][pid]; var notes := History(e, ops + [op], pid, RingFor(op));
      Answer(mid, op, sensitive, w) == if sensitive then Some(SensitivePath)
        else if !op.noise && !LastTrust(ops, pid, e.trusted) && notes != []
             && SlidingWindow.RingReturn(notes, Limit(op), w) > Limit(op)
        then Some(VolumeReason(op)) else None
  {
    var e, s := states[0][pid], states[|ops|];
    var victim :| Touched(s, mid, pid, op.now, op.allocOk, victim);
    assert pid in s;
    assert mid[pid] == s[pid].(touched := op.now);
    EntrySaysLastExec(states, ops, pid);
    RingsAreHistory(states, ops, pid, RingFor(op));
    AnswerOfEntry(mid, op, sensitive, w);
    if !op.noise && !LastTrust(ops, pid, e.trusted) {
      HistoryNext(e, ops, op, pid);
    }
  }

  /** A process whose last exec was trusted is never killed for volume, and no path that is noise is
      ever the reason. */
  lemma {:induction false} TrustedIsSpared(states: seq<Contents>, ops: seq<Op>, op: Op, mid: Contents, pid: nat,
                                           sensitive: bool, w: nat)
    requires AnsweredAfter(states, ops, op, mid, pid)
    requires op.noise || LastTrust(ops, pid, states[0][pid].trusted)
    ensures Answer(mid, op, sensitive, w) == if sensitive then Some(SensitivePath) else None
  {
    AnswerFromOps(states, ops, op, mid, pid, sensitive, w);
  }

  /** Fifty-one distinct first opens of an untrusted process within one window, or twenty-one renames,
      end in a kill. */
  lemma {:induction false} BurstIsKilled(states: seq<Contents>, ops: seq<Op>, op: Op, mid: Contents, pid: nat,
                                         sensitive: bool, w: nat, idx: seq<nat>)
    requires AnsweredAfter(states, ops, op, mid, pid)
    requires !op.noise && !LastTrust(ops, pid, states[0][pid].trusted)
    requires var notes := History(states[0][pid], ops + [op], pid, RingFor(op));
      && SlidingWindow.NonDecreasing(notes) && SlidingWindow.Burst(notes, w, idx)
      && |idx| == if op.Open? then 51 else 21
    ensures Answer(mid, op, sensitive, w)
         == Some(if sensitive then SensitivePath else if op.Open? then RapidWrites else RapidRenaming)
  {
    AnswerFromOps(states, ops, op, mid, pid, sensitive, w);
    SlidingWindow.BurstIsReported(History(states[0][pid], ops + [op], pid, RingFor(op)), Limit(op), w, idx);
  }

  /** A kill for volume is earned: the path is not noise, the last exec was not trusted, and in the
      window that ends with it the process opened more than 50, or renamed more than 20, distinct
      paths. */
  lemma {:induction false} KillIsEarned(states: seq<Contents>, ops: seq<Op>, op: Op, mid: Contents, pid: nat,
                                        sensitive: bool, w: nat)
    requires AnsweredAfter(states, ops, op, mid, pid)
    requires SlidingWindow.NonDecreasing(History(states[0][pid], ops + [op], pid, RingFor(op)))
    requires Answer(mid, op, sensitive, w).Some? && Answer(mid, op, sensitive, w) != Some(SensitivePath)
    ensures Answer(mid, op, sensitive, w) == Some(if op.Open? then RapidWrites else RapidRenaming)
    ensures !sensitive && !op.noise && !LastTrust(ops, pid, states[0][pid].trusted)
    ensures var notes := History(states[0][pid], ops + [op], pid, RingFor(op));
      notes != [] && |SlidingWindow.Touched(notes, w)| > if op.Open? then 50 else 20
  {
    AnswerFromOps(states, ops, op, mid, pid, sensitive, w);
    SlidingWindow.PositiveAnswer(History(states[0][pid], ops + [op], pid, RingFor(op)), Limit(op), w);
  }
}
