/** The kernel side of the scan protocol: waiters, verdict handlers, timeouts, registration and
    socket release, interleaved arbitrarily. One step is one lock section, one completion
    operation, one allocation or one free. */
module VerdictChannel {
  import opened Options

  /** How a scan request ended. */
  datatype Outcome = NotConnected | NoEntry | SendFailed | TimedOut | Verdict(v: nat)

  /** Where a scan request is. Failing and FailedUnlinked carry on to the error return, Expired is
      between the timeout and taking the list lock, SecondWait is the unconditional wait. */
  datatype WaiterPc =
    | Checked | Allocated | Linked | Waiting | Failing | FailedUnlinked
    | Expired | ExpiredUnlinked | SecondWait | Reading | HasRead(v: Option<nat>) | Done(outcome: Outcome)

  /** A pending entry in kernel memory. `taker` records which handler dequeued it, if any. */
  datatype Entry = Entry(reqid: nat, live: bool, frees: nat, linked: bool, done: nat,
                         verdict: Option<nat>, taker: Option<nat>)

  /** A verdict message; either attribute may be missing. */
  datatype Message = Message(portid: nat, reqid: Option<nat>, verdict: Option<nat>)

  datatype Code = BadMessage | NotPermitted | Stale | Completed

  datatype HandlerPc = Arrived | Authorized | Dequeued(w: nat) | Written(w: nat) | Finished(code: Code)

  /** A verdict being processed. `authorized` records that the sender was the registered
      daemon when it was checked, `took` which entry was dequeued. */
  datatype Handler = Handler(msg: Message, pc: HandlerPc, authorized: bool, took: Option<nat>)

  /** Entries are named by the waiter that allocated them. `sent` are the request numbers that
      were handed to a daemon; `fault` is raised by any use of freed memory and any second free. A
      removal from the list uses the neighbours of a listed entry; the handler leaves an entry it
      has dequeued linked to itself, so that removing it once more touches no other. */
  datatype State = State(registered: bool, portid: nat, counter: nat, sent: set<nat>,
                         waiters: map<nat, WaiterPc>, entries: map<nat, Entry>,
                         handlers: map<nat, Handler>, fault: bool)

  datatype Step =
    | Register(port: nat)
    | Release(port: nat)
    | Begin(w: nat)
    | Allocate(w: nat, ok: bool)
    | Link(w: nat)
    | Send(w: nat, ok: bool)
    | UnlinkFailed(w: nat)
    | FreeFailed(w: nat)
    | Wake(w: nat)
    | Expire(w: nat)
    | Resolve(w: nat)
    | FreeExpired(w: nat)
    | SecondWake(w: nat)
    | Read(w: nat)
    | FreeRead(w: nat)
    | Arrive(h: nat, msg: Message)
    | Check(h: nat)
    | Dequeue(h: nat, w: nat)
    | DequeueNothing(h: nat)
    | Write(h: nat)
    | Complete(h: nat)

  function Init(): State {
    State(false, 0, 0, {}, map[], map[], map[], false)
  }

  predicate At(s: State, w: nat, pc: WaiterPc) {
    w in s.waiters && w in s.entries && s.waiters[w] == pc
  }

  predicate HandlerAt(s: State, h: nat, pc: HandlerPc) {
    h in s.handlers && s.handlers[h].pc == pc
  }

  predicate IsVerdict(v: nat) {
    v == 0 || v == 1
  }

  /** Entries that carry this request number and are on the list. */
  predicate Matches(s: State, r: nat, w: nat) {
    w in s.entries && s.entries[w].linked && s.entries[w].reqid == r
  }

  /** When a step may happen, whatever the daemon does. */
  predicate Possible(s: State, step: Step) {
    match step
    case Register(_) => true
    case Release(_) => true
    case Begin(w) => w !in s.waiters
    case Allocate(w, _) => w in s.waiters && w !in s.entries && s.waiters[w] == Checked
    case Link(w) => At(s, w, Allocated)
    case Send(w, _) => At(s, w, Linked)
    case UnlinkFailed(w) => At(s, w, Failing)
    case FreeFailed(w) => At(s, w, FailedUnlinked)
    case Wake(w) => At(s, w, Waiting) && s.entries[w].done > 0
    case Expire(w) => At(s, w, Waiting) && s.entries[w].done == 0
    case Resolve(w) => At(s, w, Expired)
    case FreeExpired(w) => At(s, w, ExpiredUnlinked)
    case SecondWake(w) => At(s, w, SecondWait) && s.entries[w].done > 0
    case Read(w) => At(s, w, Reading)
    case FreeRead(w) => w in s.waiters && w in s.entries && s.waiters[w].HasRead?
    case Arrive(h, _) => h !in s.handlers
    case Check(h) => HandlerAt(s, h, Arrived)
    case Dequeue(h, w) => HandlerAt(s, h, Authorized) && Acceptable(s.handlers[h].msg) &&
      Matches(s, s.handlers[h].msg.reqid.value, w)
    case DequeueNothing(h) => HandlerAt(s, h, Authorized) &&
      (Acceptable(s.handlers[h].msg) ==> forall w :: w in s.entries ==> !Matches(s, s.handlers[h].msg.reqid.value, w))
    case Write(h) => h in s.handlers && s.handlers[h].pc.Dequeued? && s.handlers[h].pc.w in s.entries &&
      s.handlers[h].msg.verdict.Some?
    case Complete(h) => h in s.handlers && s.handlers[h].pc.Written? && s.handlers[h].pc.w in s.entries
  }

  /** Handler h has dequeued entry w and still owes it the completion. */
  predicate Committed(s: State, h: nat, w: nat) {
    HandlerAt(s, h, Dequeued(w)) || HandlerAt(s, h, Written(w))
  }

  /** Some handler still uses the entry. */
  predicate InUse(s: State, w: nat) {
    exists h :: h in s.handlers && Committed(s, h, w)
  }

  /** When a step may happen with the test that the path of a failed send omits: it frees its
      entry only when no handler uses it. */
  predicate Enabled(s: State, step: Step) {
    Possible(s, step) && (step.FreeFailed? ==> !InUse(s, step.w))
  }

  predicate Acceptable(m: Message) {
    m.reqid.Some? && m.verdict.Some? && IsVerdict(m.verdict.value)
  }

  /** Walking or relinking the list uses every entry on it. */
  predicate ListFault(s: State) {
    exists w :: w in s.entries && s.entries[w].linked && !s.entries[w].live
  }

  function MoveTo(s: State, w: nat, pc: WaiterPc): State {
    s.(waiters := s.waiters[w := pc])
  }

  /** A waiter step that uses its own entry. */
  function Use(s: State, w: nat, e: Entry, pc: WaiterPc): State
    requires w in s.entries
  {
    s.(waiters := s.waiters[w := pc], entries := s.entries[w := e], fault := s.fault || !s.entries[w].live)
  }

  function Free(s: State, w: nat, outcome: Outcome): State
    requires w in s.entries
  {
    var e := s.entries[w];
    Use(s, w, e.(live := false, frees := e.frees + 1), Done(outcome))
  }

  function Unlink(s: State, w: nat, pc: WaiterPc): State
    requires w in s.entries
  {
    var e := s.entries[w];
    var t := Use(s, w, e.(linked := false), pc);
    t.(fault := t.fault || (e.linked && ListFault(s)))
  }

  function Conclude(s: State, h: nat, code: Code): State
    requires h in s.handlers
  {
    s.(handlers := s.handlers[h := s.handlers[h].(pc := Finished(code))])
  }

  function Listed(s: State, w: nat): State
    requires w in s.entries
  {
    var t := Use(s, w, s.entries[w].(linked := true), Linked);
    t.(fault := t.fault || ListFault(s))
  }

  function HandedOver(s: State, w: nat, ok: bool): State
    requires w in s.entries
  {
    if ok then Use(s, w, s.entries[w], Waiting).(sent := s.sent + {s.entries[w].reqid})
    else Use(s, w, s.entries[w], Failing)
  }

  function Woken(s: State, w: nat): State
    requires w in s.entries && s.entries[w].done > 0
  {
    Use(s, w, s.entries[w].(done := s.entries[w].done - 1), Reading)
  }

  /** Under the list lock: still on the list means nobody will complete the entry any more. */
  function Resolved(s: State, w: nat): State
    requires w in s.entries
  {
    if s.entries[w].linked then Unlink(s, w, ExpiredUnlinked) else Use(s, w, s.entries[w], SecondWait)
  }

  function Returned(s: State, w: nat): State
    requires w in s.entries && w in s.waiters && s.waiters[w].HasRead?
  {
    var v := s.waiters[w].v;
    if v.Some? then Free(s, w, Verdict(v.value)) else Free(s, w, Verdict(2)).(fault := true)
  }

  function CheckedBy(s: State, h: nat): State
    requires h in s.handlers
  {
    var x := s.handlers[h];
    if x.msg.reqid.None? || x.msg.verdict.None? then Conclude(s, h, BadMessage)
    else if !s.registered || x.msg.portid != s.portid then Conclude(s, h, NotPermitted)
    else s.(handlers := s.handlers[h := x.(pc := Authorized, authorized := true)])
  }

  function DequeuedBy(s: State, h: nat, w: nat): State
    requires h in s.handlers && w in s.entries
  {
    s.(handlers := s.handlers[h := s.handlers[h].(pc := Dequeued(w), took := Some(w))],
       entries := s.entries[w := s.entries[w].(linked := false, taker := Some(h))],
       fault := s.fault || ListFault(s))
  }

  function NothingFound(s: State, h: nat): State
    requires h in s.handlers
  {
    if !Acceptable(s.handlers[h].msg) then Conclude(s, h, BadMessage)
    else Conclude(s, h, Stale).(fault := s.fault || ListFault(s))
  }

  function WrittenBy(s: State, h: nat, w: nat): State
    requires h in s.handlers && w in s.entries
  {
    s.(handlers := s.handlers[h := s.handlers[h].(pc := Written(w))],
       entries := s.entries[w := s.entries[w].(verdict := s.handlers[h].msg.verdict)],
       fault := s.fault || !s.entries[w].live)
  }

  function CompletedBy(s: State, h: nat, w: nat): State
    requires h in s.handlers && w in s.entries
  {
    s.(handlers := s.handlers[h := s.handlers[h].(pc := Finished(Completed))],
       entries := s.entries[w := s.entries[w].(done := s.entries[w].done + 1)],
       fault := s.fault || !s.entries[w].live)
  }

  function Apply(s: State, step: Step): State
    requires Possible(s, step)
  {
    match step
    case Register(port) => s.(registered := true, portid := port)
    case Release(port) => if s.registered && s.portid == port then s.(registered := false) else s
    case Begin(w) => MoveTo(s, w, if s.registered then Checked else Done(NotConnected))
    case Allocate(w, ok) =>
      if !ok then MoveTo(s, w, Done(NoEntry))
      else s.(counter := s.counter + 1, waiters := s.waiters[w := Allocated],
              entries := s.entries[w := Entry(s.counter + 1, true, 0, false, 0, None, None)])
    case Link(w) => Listed(s, w)
    case Send(w, ok) => HandedOver(s, w, ok)
    case UnlinkFailed(w) => Unlink(s, w, FailedUnlinked)
    case FreeFailed(w) => Free(s, w, SendFailed)
    case Wake(w) => Woken(s, w)
    case Expire(w) => Use(s, w, s.entries[w], Expired)
    case Resolve(w) => Resolved(s, w)
    case FreeExpired(w) => Free(s, w, TimedOut)
    case SecondWake(w) => Woken(s, w)
    case Read(w) => Use(s, w, s.entries[w], HasRead(s.entries[w].verdict))
    case FreeRead(w) => Returned(s, w)
    case Arrive(h, msg) => s.(handlers := s.handlers[h := Handler(msg, Arrived, false, None)])
    case Check(h) => CheckedBy(s, h)
    case Dequeue(h, w) => DequeuedBy(s, h, w)
    case DequeueNothing(h) => NothingFound(s, h)
    case Write(h) => WrittenBy(s, h, s.handlers[h].pc.w)
    case Complete(h) => CompletedBy(s, h, s.handlers[h].pc.w)
  }

  // ----- runs

  /** What can happen with any daemon. */
  predicate IsExecution(steps: seq<Step>)
    decreases |steps|, 0
  {
    || steps == []
    || (IsExecution(steps[..|steps| - 1]) && Possible(After(steps[..|steps| - 1]), steps[|steps| - 1]))
  }

  function After(steps: seq<Step>): State
    requires IsExecution(steps)
    decreases |steps|, 1
  {
    if steps == [] then Init() else Apply(After(steps[..|steps| - 1]), steps[|steps| - 1])
  }

  /** The executions in which no failed request was freed while a handler used it. */
  predicate IsRun(steps: seq<Step>)
    ensures IsRun(steps) ==> IsExecution(steps)
    decreases |steps|
  {
    steps == [] || (IsRun(steps[..|steps| - 1]) && Enabled(After(steps[..|steps| - 1]), steps[|steps| - 1]))
  }

  // ----- the invariant

  /** An entry no handler has dequeued. */
  ghost predicate Untaken(e: Entry, pc: WaiterPc) {
    && e.done == 0 && e.verdict == None
    && match pc
       case Allocated => !e.linked
       case Linked => e.linked
       case Failing => e.linked
       case Waiting => e.linked
       case Expired => e.linked
       case FailedUnlinked => !e.linked
       case ExpiredUnlinked => !e.linked
       case Done(o) => !e.linked && (o == SendFailed || o == TimedOut)
       case _ => false
  }

  /** The waiter has the entry and has not consumed a completion. */
  ghost predicate AwaitsCompletion(pc: WaiterPc) {
    || pc == Linked || pc == Waiting || pc == Expired || pc == SecondWait
    || pc == Failing || pc == FailedUnlinked
  }

  /** An entry dequeued by handler x: the handler still owes the completion, or has given it. */
  ghost predicate Taken(e: Entry, w: nat, pc: WaiterPc, x: Handler) {
    && !e.linked && x.took == Some(w) && x.authorized
    && Acceptable(x.msg) && x.msg.reqid == Some(e.reqid)
    && match x.pc
       case Dequeued(u) => u == w && e.done == 0 && AwaitsCompletion(pc)
       case Written(u) => u == w && e.done == 0 && e.verdict == x.msg.verdict && AwaitsCompletion(pc)
       case Finished(c) =>
         && c == Completed && e.verdict == x.msg.verdict
         && (if AwaitsCompletion(pc) || pc == Done(SendFailed) then e.done == 1
             else e.done == 0 && (pc == Reading || pc == HasRead(x.msg.verdict)
                                  || pc == Done(Verdict(x.msg.verdict.value))))
       case _ => false
  }

  ghost predicate EntryOk(s: State, w: nat)
    requires w in s.entries
  {
    var e := s.entries[w];
    && w in s.waiters
    && e.reqid <= s.counter
    && e.live == !s.waiters[w].Done? && e.frees == (if e.live then 0 else 1)
    && match e.taker
       case None => Untaken(e, s.waiters[w])
       case Some(h) => h in s.handlers && Taken(e, w, s.waiters[w], s.handlers[h])
  }

  ghost predicate HandlerOk(s: State, h: nat)
    requires h in s.handlers
  {
    var x := s.handlers[h];
    && (x.took.Some? ==> x.took.value in s.entries && s.entries[x.took.value].taker == Some(h))
    && (x.pc == Authorized ==> x.authorized && x.msg.reqid.Some?)
    && (x.pc == Arrived || x.pc == Authorized ==> x.took == None)
    && (x.pc.Dequeued? || x.pc.Written? ==> x.took == Some(x.pc.w))
    && (x.pc == Finished(Completed) ==> x.took.Some?)
  }

  ghost predicate DistinctNumbers(s: State) {
    forall w, u :: w in s.entries && u in s.entries && w != u ==> s.entries[w].reqid != s.entries[u].reqid
  }

  ghost predicate Inv(s: State) {
    && !s.fault
    && DistinctNumbers(s)
    && (forall w :: w in s.entries ==> EntryOk(s, w))
    && (forall h :: h in s.handlers ==> HandlerOk(s, h))
    && (forall w :: w in s.waiters && w !in s.entries ==>
          s.waiters[w] == Checked || s.waiters[w] == Done(NotConnected) || s.waiters[w] == Done(NoEntry))
  }

  lemma {:induction false} LinkedIsLive(s: State)
    requires Inv(s)
    ensures !ListFault(s)
  {
    forall w | w in s.entries && s.entries[w].linked ensures s.entries[w].live {
      assert EntryOk(s, w);
    }
  }

  /** A waiter step changes only its own entry. */
  lemma {:induction false} WaiterFrame(s: State, t: State, w: nat)
    requires Inv(s) && w in s.entries && w in t.entries && w in t.waiters
    requires t.handlers == s.handlers && t.counter == s.counter && !t.fault
    requires t.waiters == s.waiters[w := t.waiters[w]] && t.entries == s.entries[w := t.entries[w]]
    requires t.entries[w].reqid == s.entries[w].reqid && t.entries[w].taker == s.entries[w].taker
    requires EntryOk(t, w)
    ensures Inv(t)
  {
    forall u | u in t.entries ensures EntryOk(t, u) {
      assert EntryOk(s, u);
    }
    forall h | h in t.handlers ensures HandlerOk(t, h) {
      assert HandlerOk(s, h);
    }
    assert EntryOk(s, w);
  }

  /** A handler step changes only its own record and the entry it has, or is about to have. */
  lemma {:induction false} HandlerFrame(s: State, t: State, h: nat, w: nat)
    requires Inv(s) && w in s.entries && w in t.entries && h in s.handlers && h in t.handlers
    requires t.waiters == s.waiters && t.counter == s.counter && !t.fault
    requires t.handlers == s.handlers[h := t.handlers[h]] && t.entries == s.entries[w := t.entries[w]]
    requires t.entries[w].reqid == s.entries[w].reqid
    requires s.entries[w].taker == None || s.entries[w].taker == Some(h)
    requires s.handlers[h].took == None || s.handlers[h].took == Some(w)
    requires EntryOk(t, w) && HandlerOk(t, h)
    ensures Inv(t)
  {
    forall u | u in t.entries ensures EntryOk(t, u) {
      assert EntryOk(s, u);
      assert HandlerOk(s, h);
    }
    forall g | g in t.handlers ensures HandlerOk(t, g) {
      assert HandlerOk(s, g);
    }
  }

  /** A handler that has dequeued nothing may come, be checked, or end. */
  lemma {:induction false} IdleHandlerFrame(s: State, t: State, h: nat)
    requires Inv(s) && h in t.handlers && t == s.(handlers := s.handlers[h := t.handlers[h]])
    requires h in s.handlers ==> s.handlers[h].took == None
    requires t.handlers[h].took == None && HandlerOk(t, h)
    ensures Inv(t)
  {
    forall u | u in t.entries ensures EntryOk(t, u) {
      assert EntryOk(s, u);
      if h in s.handlers {
        assert HandlerOk(s, h);
      }
    }
    forall g | g in t.handlers ensures HandlerOk(t, g) {
      if g in s.handlers {
        assert HandlerOk(s, g);
      }
    }
  }

  lemma {:induction false} DaemonStep(s: State, step: Step)
    requires Inv(s) && Enabled(s, step) && (step.Register? || step.Release? || step.Begin?)
    ensures Inv(Apply(s, step))
  {
    var t := Apply(s, step);
    forall w | w in t.entries ensures EntryOk(t, w) {
      assert EntryOk(s, w);
    }
    forall h | h in t.handlers ensures HandlerOk(t, h) {
      assert HandlerOk(s, h);
    }
  }

  lemma {:induction false} NumbersGiven(s: State)
    requires Inv(s)
    ensures forall u :: u in s.entries ==> s.entries[u].reqid <= s.counter
  {
    forall u | u in s.entries ensures s.entries[u].reqid <= s.counter {
      assert EntryOk(s, u);
    }
  }

  lemma {:induction false} NewEntry(s: State, w: nat)
    requires Inv(s) && Possible(s, Allocate(w, true))
    ensures Inv(Apply(s, Allocate(w, true)))
  {
    var t := Apply(s, Allocate(w, true));
    NumbersGiven(s);
    forall u | u in t.entries ensures EntryOk(t, u) {
      if u in s.entries {
        assert EntryOk(s, u);
      }
    }
    forall h | h in t.handlers ensures HandlerOk(t, h) {
      assert HandlerOk(s, h);
    }
  }

  lemma {:induction false} NoEntryStep(s: State, w: nat)
    requires Inv(s) && Possible(s, Allocate(w, false))
    ensures Inv(Apply(s, Allocate(w, false)))
  {
    var t := Apply(s, Allocate(w, false));
    forall u | u in t.entries ensures EntryOk(t, u) {
      assert EntryOk(s, u);
    }
    forall h | h in t.handlers ensures HandlerOk(t, h) {
      assert HandlerOk(s, h);
    }
  }

  lemma {:induction false} AllocateStep(s: State, w: nat, ok: bool)
    requires Inv(s) && Possible(s, Allocate(w, ok))
    ensures Inv(Apply(s, Allocate(w, ok)))
  {
    if ok {
      NewEntry(s, w);
    } else {
      NoEntryStep(s, w);
    }
  }

  lemma {:induction false} ArriveStep(s: State, h: nat, m: Message)
    requires Inv(s) && h !in s.handlers
    ensures Inv(s.(handlers := s.handlers[h := Handler(m, Arrived, false, None)]))
  {
    IdleHandlerFrame(s, s.(handlers := s.handlers[h := Handler(m, Arrived, false, None)]), h);
  }

  lemma {:induction false} CheckStep(s: State, h: nat)
    requires Inv(s) && HandlerAt(s, h, Arrived)
    ensures Inv(CheckedBy(s, h))
  {
    assert HandlerOk(s, h);
    IdleHandlerFrame(s, CheckedBy(s, h), h);
  }

  lemma {:induction false} NothingStep(s: State, h: nat)
    requires Inv(s) && HandlerAt(s, h, Authorized)
    ensures Inv(NothingFound(s, h))
  {
    LinkedIsLive(s);
    assert HandlerOk(s, h);
    IdleHandlerFrame(s, NothingFound(s, h), h);
  }

  // Each waiter step keeps its own entry consistent and uses no freed memory.

  lemma {:induction false} ListStep(s: State, w: nat)
    requires Inv(s) && At(s, w, Allocated)
    ensures Inv(Listed(s, w))
  {
    LinkedIsLive(s);
    assert EntryOk(s, w);
    WaiterFrame(s, Listed(s, w), w);
  }

  lemma {:induction false} SendOkStep(s: State, w: nat)
    requires Inv(s) && At(s, w, Linked)
    ensures Inv(HandedOver(s, w, true))
  {
    LinkedIsLive(s);
    assert EntryOk(s, w);
    WaiterFrame(s, HandedOver(s, w, true), w);
  }

  lemma {:induction false} SendFailStep(s: State, w: nat)
    requires Inv(s) && At(s, w, Linked)
    ensures Inv(HandedOver(s, w, false))
  {
    LinkedIsLive(s);
    assert EntryOk(s, w);
    WaiterFrame(s, HandedOver(s, w, false), w);
  }

  lemma {:induction false} UnlinkStep(s: State, w: nat)
    requires Inv(s) && At(s, w, Failing)
    ensures Inv(Unlink(s, w, FailedUnlinked))
  {
    LinkedIsLive(s);
    assert EntryOk(s, w);
    WaiterFrame(s, Unlink(s, w, FailedUnlinked), w);
  }

  lemma {:induction false} FreeFailedStep(s: State, w: nat)
    requires Inv(s) && At(s, w, FailedUnlinked) && !InUse(s, w)
    ensures Inv(Free(s, w, SendFailed))
  {
    LinkedIsLive(s);
    assert EntryOk(s, w);
    WaiterFrame(s, Free(s, w, SendFailed), w);
  }

  lemma {:induction false} WakeStep(s: State, w: nat)
    requires Inv(s) && (At(s, w, Waiting) || At(s, w, SecondWait)) && s.entries[w].done > 0
    ensures Inv(Woken(s, w))
  {
    LinkedIsLive(s);
    assert EntryOk(s, w);
    WaiterFrame(s, Woken(s, w), w);
  }

  lemma {:induction false} ExpireStep(s: State, w: nat)
    requires Inv(s) && At(s, w, Waiting) && s.entries[w].done == 0
    ensures Inv(Use(s, w, s.entries[w], Expired))
  {
    LinkedIsLive(s);
    assert EntryOk(s, w);
    WaiterFrame(s, Use(s, w, s.entries[w], Expired), w);
  }

  lemma {:induction false} ResolveStep(s: State, w: nat)
    requires Inv(s) && At(s, w, Expired)
    ensures Inv(Resolved(s, w))
  {
    LinkedIsLive(s);
    assert EntryOk(s, w);
    WaiterFrame(s, Resolved(s, w), w);
  }

  lemma {:induction false} FreeExpiredStep(s: State, w: nat)
    requires Inv(s) && At(s, w, ExpiredUnlinked)
    ensures Inv(Free(s, w, TimedOut))
  {
    LinkedIsLive(s);
    assert EntryOk(s, w);
    WaiterFrame(s, Free(s, w, TimedOut), w);
  }

  lemma {:induction false} ReadStep(s: State, w: nat)
    requires Inv(s) && At(s, w, Reading)
    ensures Inv(Use(s, w, s.entries[w], HasRead(s.entries[w].verdict)))
  {
    LinkedIsLive(s);
    assert EntryOk(s, w);
    WaiterFrame(s, Use(s, w, s.entries[w], HasRead(s.entries[w].verdict)), w);
  }

  lemma {:induction false} ReadSomething(s: State, w: nat)
    requires Inv(s) && w in s.waiters && w in s.entries && s.waiters[w].HasRead?
    ensures s.waiters[w].v.Some? && Returned(s, w) == Free(s, w, Verdict(s.waiters[w].v.value))
  {
    assert EntryOk(s, w);
  }

  lemma {:induction false} ReadIsTaken(s: State, w: nat, v: nat) returns (h: nat)
    requires Inv(s) && At(s, w, HasRead(Some(v)))
    ensures s.entries[w].taker == Some(h) && h in s.handlers && s.entries[w].live && s.entries[w].frees == 0
    ensures Taken(s.entries[w], w, HasRead(Some(v)), s.handlers[h]) && s.entries[w].reqid <= s.counter
  {
    assert EntryOk(s, w);
    h := s.entries[w].taker.value;
  }

  lemma {:induction false} TakenFreed(e: Entry, w: nat, v: nat, x: Handler)
    requires Taken(e, w, HasRead(Some(v)), x)
    ensures Taken(e.(live := false, frees := e.frees + 1), w, Done(Verdict(v)), x)
  {
  }

  lemma {:induction false} FreeReadStep(s: State, w: nat, v: nat)
    requires Inv(s) && At(s, w, HasRead(Some(v)))
    ensures Inv(Free(s, w, Verdict(v)))
  {
    var h := ReadIsTaken(s, w, v);
    TakenFreed(s.entries[w], w, v, s.handlers[h]);
    WaiterFrame(s, Free(s, w, Verdict(v)), w);
  }

  lemma {:induction false} ReturnStep(s: State, w: nat)
    requires Inv(s) && w in s.waiters && w in s.entries && s.waiters[w].HasRead?
    ensures Inv(Returned(s, w))
  {
    ReadSomething(s, w);
    FreeReadStep(s, w, s.waiters[w].v.value);
  }

  lemma {:induction false} DequeueStep(s: State, h: nat, w: nat)
    requires Inv(s) && HandlerAt(s, h, Authorized) && Acceptable(s.handlers[h].msg)
    requires Matches(s, s.handlers[h].msg.reqid.value, w)
    ensures Inv(DequeuedBy(s, h, w))
  {
    LinkedIsLive(s);
    assert HandlerOk(s, h) && EntryOk(s, w);
    HandlerFrame(s, DequeuedBy(s, h, w), h, w);
  }

  lemma {:induction false} WriteStep(s: State, h: nat, w: nat)
    requires Inv(s) && HandlerAt(s, h, Dequeued(w))
    ensures w in s.entries && Inv(WrittenBy(s, h, w))
  {
    assert HandlerOk(s, h);
    assert EntryOk(s, w);
    HandlerFrame(s, WrittenBy(s, h, w), h, w);
  }

  lemma {:induction false} CompleteStep(s: State, h: nat, w: nat)
    requires Inv(s) && HandlerAt(s, h, Written(w))
    ensures w in s.entries && Inv(CompletedBy(s, h, w))
  {
    assert HandlerOk(s, h);
    assert EntryOk(s, w);
    HandlerFrame(s, CompletedBy(s, h, w), h, w);
  }

  lemma {:induction false} WaiterStep(s: State, step: Step)
    requires Inv(s) && Enabled(s, step)
    requires step.Link? || step.Send? || step.UnlinkFailed? || step.FreeFailed? || step.Wake? || step.Expire?
      || step.Resolve? || step.FreeExpired? || step.SecondWake? || step.Read? || step.FreeRead?
    ensures Inv(Apply(s, step))
  {
    match step {
      case Link(w) => ListStep(s, w);
      case Send(w, ok) => if ok { SendOkStep(s, w); } else { SendFailStep(s, w); }
      case UnlinkFailed(w) => UnlinkStep(s, w);
      case FreeFailed(w) => FreeFailedStep(s, w);
      case Wake(w) => WakeStep(s, w);
      case Expire(w) => ExpireStep(s, w);
      case Resolve(w) => ResolveStep(s, w);
      case FreeExpired(w) => FreeExpiredStep(s, w);
      case SecondWake(w) => WakeStep(s, w);
      case Read(w) => ReadStep(s, w);
      case FreeRead(w) => ReturnStep(s, w);
    }
  }

  lemma {:induction false} IdleStep(s: State, step: Step)
    requires Inv(s) && Enabled(s, step) && (step.Arrive? || step.Check? || step.DequeueNothing?)
    ensures Inv(Apply(s, step))
  {
    match step {
      case Arrive(h, m) => ArriveStep(s, h, m);
      case Check(h) => CheckStep(s, h);
      case DequeueNothing(h) => NothingStep(s, h);
    }
  }

  lemma {:induction false} TakerStep(s: State, step: Step)
    requires Inv(s) && Enabled(s, step) && (step.Dequeue? || step.Write? || step.Complete?)
    ensures Inv(Apply(s, step))
  {
    match step {
      case Dequeue(h, w) => DequeueStep(s, h, w);
      case Write(h) => WriteStep(s, h, s.handlers[h].pc.w);
      case Complete(h) => CompleteStep(s, h, s.handlers[h].pc.w);
    }
  }

  /** Every reachable state satisfies the invariant. */
  lemma {:induction false} Reachable(steps: seq<Step>)
    requires IsRun(steps)
    ensures Inv(After(steps))
  {
    if steps != [] {
      var s, step := After(steps[..|steps| - 1]), steps[|steps| - 1];
      Reachable(steps[..|steps| - 1]);
      match step {
        case Register(_) => DaemonStep(s, step);
        case Release(_) => DaemonStep(s, step);
        case Begin(_) => DaemonStep(s, step);
        case Allocate(w, ok) => AllocateStep(s, w, ok);
        case Arrive(_, _) => IdleStep(s, step);
        case Check(_) => IdleStep(s, step);
        case DequeueNothing(_) => IdleStep(s, step);
        case Dequeue(_, _) => TakerStep(s, step);
        case Write(_) => TakerStep(s, step);
        case Complete(_) => TakerStep(s, step);
        case _ => WaiterStep(s, step);
      }
    }
  }

  // ----- the theorems

  /** Handler h still uses entry w, which has been freed. */
  predicate Dangles(s: State, h: nat, w: nat) {
    Committed(s, h, w) && w in s.entries && !s.entries[w].live
  }

  /** No freed entry has been used or freed again, and no handler is left that uses one. */
  ghost predicate Safe(s: State) {
    !s.fault && forall h, w :: !Dangles(s, h, w)
  }

  lemma {:induction false} CommittedIsTaken(s: State, h: nat, w: nat)
    requires Inv(s) && Committed(s, h, w)
    ensures w in s.entries && s.entries[w].live && s.entries[w].taker == Some(h)
  {
    assert HandlerOk(s, h);
    assert EntryOk(s, w);
  }

  lemma {:induction false} InvIsSafe(s: State)
    requires Inv(s)
    ensures Safe(s)
  {
    forall h, w ensures !Dangles(s, h, w) {
      if Committed(s, h, w) {
        CommittedIsTaken(s, h, w);
      }
    }
  }

  lemma {:induction false} FaultStays(s: State, step: Step)
    requires Possible(s, step) && s.fault
    ensures Apply(s, step).fault
  {
  }

  lemma {:induction false} OwnStepFaults(s: State, step: Step, h: nat, w: nat)
    requires Possible(s, step) && Dangles(s, h, w) && (step == Write(h) || step == Complete(h))
    ensures Apply(s, step).fault
  {
  }

  lemma {:induction false} OtherStepKeepsHandler(s: State, step: Step, h: nat)
    requires Possible(s, step) && h in s.handlers && step != Write(h) && step != Complete(h)
    requires s.handlers[h].pc.Dequeued? || s.handlers[h].pc.Written?
    ensures h in Apply(s, step).handlers && Apply(s, step).handlers[h] == s.handlers[h]
  {
    if !IsHandlerStep(step) {
      OthersKeepHandlers(s, step);
    }
  }

  lemma {:induction false} HandlersKeepFreed(s: State, step: Step, w: nat)
    requires Possible(s, step) && IsHandlerStep(step) && w in s.entries && !s.entries[w].live
    ensures w in Apply(s, step).entries && !Apply(s, step).entries[w].live
  {
  }

  lemma {:induction false} WaitersKeepFreed(s: State, step: Step, w: nat)
    requires Possible(s, step) && !IsHandlerStep(step) && w in s.entries && !s.entries[w].live
    ensures w in Apply(s, step).entries && !Apply(s, step).entries[w].live
  {
  }

  lemma {:induction false} FreedStaysFreed(s: State, step: Step, w: nat)
    requires Possible(s, step) && w in s.entries && !s.entries[w].live
    ensures w in Apply(s, step).entries && !Apply(s, step).entries[w].live
  {
    if IsHandlerStep(step) {
      HandlersKeepFreed(s, step, w);
    } else {
      WaitersKeepFreed(s, step, w);
    }
  }

  /** What has gone wrong stays wrong: a handler that uses a freed entry never lets go of it. */
  lemma {:induction false} UnsafeStays(s: State, step: Step)
    requires Possible(s, step) && !Safe(s)
    ensures !Safe(Apply(s, step))
  {
    if s.fault {
      FaultStays(s, step);
    } else {
      var h, w :| Dangles(s, h, w);
      if step == Write(h) || step == Complete(h) {
        OwnStepFaults(s, step, h, w);
      } else {
        OtherStepKeepsHandler(s, step, h);
        FreedStaysFreed(s, step, w);
        assert Dangles(Apply(s, step), h, w);
      }
    }
  }

  lemma {:induction false} FreedInUse(s: State, w: nat)
    requires Possible(s, FreeFailed(w)) && InUse(s, w)
    ensures !Safe(Apply(s, FreeFailed(w)))
  {
    var h :| h in s.handlers && Committed(s, h, w);
    assert Dangles(Apply(s, FreeFailed(w)), h, w);
  }

  /** Exactly when an execution is safe, whatever the daemon does: if and only if no request whose
      send failed was freed while a handler used its entry. */
  lemma {:induction false} SafeExactly(steps: seq<Step>)
    requires IsExecution(steps)
    ensures Safe(After(steps)) <==> IsRun(steps)
  {
    if IsRun(steps) {
      Reachable(steps);
      InvIsSafe(After(steps));
    } else {
      var p, step := steps[..|steps| - 1], steps[|steps| - 1];
      if IsRun(p) {
        FreedInUse(After(p), step.w);
      } else {
        SafeExactly(p);
        UnsafeStays(After(p), step);
      }
    }
  }

  /** In every interleaving with any daemon: no freed entry is used, none is freed twice and no
      handler is left with one, if and only if that test would never have failed; and then an
      entry is freed exactly when its request has returned. */
  lemma {:induction false} MemorySafety(steps: seq<Step>, w: nat)
    requires IsExecution(steps)
    ensures Safe(After(steps)) <==> IsRun(steps)
    ensures var s := After(steps);
            IsRun(steps) && w in s.entries ==>
              w in s.waiters && s.entries[w].frees == (if s.waiters[w].Done? then 1 else 0)
  {
    SafeExactly(steps);
    if IsRun(steps) && w in After(steps).entries {
      Reachable(steps);
      assert EntryOk(After(steps), w);
    }
  }

  /** A handler that has dequeued an entry has a verdict to write. */
  lemma {:induction false} DequeuedHasVerdict(steps: seq<Step>, h: nat)
    requires IsExecution(steps) && h in After(steps).handlers && After(steps).handlers[h].pc.Dequeued?
    ensures After(steps).handlers[h].msg.verdict.Some?
  {
    if steps != [] {
      var p, step := steps[..|steps| - 1], steps[|steps| - 1];
      if h in After(p).handlers && After(p).handlers[h].pc.Dequeued? {
        DequeuedHasVerdict(p, h);
        MessageStays(After(p), step, h);
      } else {
        DequeuedNow(After(p), step, h);
      }
    }
  }

  lemma {:induction false} DequeuedNow(s: State, step: Step, h: nat)
    requires Possible(s, step) && h in Apply(s, step).handlers && Apply(s, step).handlers[h].pc.Dequeued?
    requires h in s.handlers ==> !s.handlers[h].pc.Dequeued?
    ensures Apply(s, step).handlers[h].msg.verdict.Some?
  {
    if !IsHandlerStep(step) {
      OthersKeepHandlers(s, step);
    }
  }

  /** An execution that has become unsafe has used freed memory, or does so in one more step that
      nothing can prevent. */
  lemma {:induction false} UseFollows(steps: seq<Step>) returns (step: Step)
    requires IsExecution(steps) && !IsRun(steps) && !After(steps).fault
    ensures Possible(After(steps), step) && Apply(After(steps), step).fault
  {
    var s := After(steps);
    SafeExactly(steps);
    var h, w :| Dangles(s, h, w);
    if HandlerAt(s, h, Dequeued(w)) {
      DequeuedHasVerdict(steps, h);
      step := Write(h);
    } else {
      step := Complete(h);
    }
  }

  /** The second, unconditional wait is entered only with a completion given or owed. */
  lemma {:induction false} SecondWaitIsCovered(steps: seq<Step>, w: nat)
    requires IsRun(steps) && At(After(steps), w, SecondWait)
    ensures After(steps).entries[w].done > 0 || exists h :: Committed(After(steps), h, w)
  {
    var s := After(steps);
    Reachable(steps);
    assert EntryOk(s, w);
    var h := s.entries[w].taker.value;
    assert s.entries[w].done == 0 ==> Committed(s, h, w);
  }

  /** The handler steps still owed to a waiter in its second wait. */
  ghost function Owed(s: State, w: nat): nat
    requires w in s.entries
  {
    if s.entries[w].done > 0 then 0
    else if exists h :: HandlerAt(s, h, Written(w)) then 1 else 2
  }

  lemma {:induction false} OwedStep(s: State, w: nat) returns (step: Step)
    requires Inv(s) && At(s, w, SecondWait) && s.entries[w].done == 0
    ensures Enabled(s, step) && At(Apply(s, step), w, SecondWait)
    ensures Owed(Apply(s, step), w) < Owed(s, w)
  {
    assert EntryOk(s, w);
    var h := s.entries[w].taker.value;
    if HandlerAt(s, h, Written(w)) {
      step := Complete(h);
    } else {
      assert HandlerAt(s, h, Dequeued(w));
      forall g | g in s.handlers ensures !HandlerAt(s, g, Written(w)) {
        assert HandlerOk(s, g);
      }
      step := Write(h);
      assert HandlerAt(Apply(s, step), h, Written(w));
    }
  }

  /** These further steps bring the waiter out of its second wait. */
  predicate Ends(steps: seq<Step>, more: seq<Step>, w: nat) {
    IsRun(steps + more) && At(After(steps + more), w, Reading)
  }

  lemma {:induction false} WakeEndsWait(steps: seq<Step>, w: nat)
    requires IsRun(steps) && At(After(steps), w, SecondWait) && After(steps).entries[w].done > 0
    ensures Ends(steps, [SecondWake(w)], w)
  {
    Extend(steps, SecondWake(w));
  }

  lemma {:induction false} EndsLater(steps: seq<Step>, step: Step, rest: seq<Step>, w: nat)
    requires Ends(steps + [step], rest, w)
    ensures Ends(steps, [step] + rest, w)
  {
    assert steps + [step] + rest == steps + ([step] + rest);
  }

  lemma {:induction false} OwedStepRuns(steps: seq<Step>, w: nat) returns (step: Step)
    requires IsRun(steps) && At(After(steps), w, SecondWait) && After(steps).entries[w].done == 0
    ensures IsRun(steps + [step]) && At(After(steps + [step]), w, SecondWait)
    ensures Owed(After(steps + [step]), w) < Owed(After(steps), w)
  {
    Reachable(steps);
    step := OwedStep(After(steps), w);
    Extend(steps, step);
  }

  /** Nothing can block that wait: the owed handler steps and one wake-up end it. */
  lemma {:induction false} SecondWaitEnds(steps: seq<Step>, w: nat) returns (more: seq<Step>)
    requires IsRun(steps) && At(After(steps), w, SecondWait)
    ensures |more| <= 1 + Owed(After(steps), w) <= 3 && Ends(steps, more, w)
    decreases Owed(After(steps), w)
  {
    if After(steps).entries[w].done > 0 {
      WakeEndsWait(steps, w);
      more := [SecondWake(w)];
    } else {
      var step := OwedStepRuns(steps, w);
      var rest := SecondWaitEnds(steps + [step], w);
      EndsLater(steps, step, rest, w);
      more := [step] + rest;
    }
  }

  lemma {:induction false} Extend(steps: seq<Step>, step: Step)
    requires IsRun(steps) && Enabled(After(steps), step)
    ensures IsRun(steps + [step]) && After(steps + [step]) == Apply(After(steps), step)
  {
    assert (steps + [step])[..|steps|] == steps;
  }

  lemma {:induction false} TakenIsNotTimedOut(s: State, h: nat, w: nat)
    requires Inv(s) && h in s.handlers && s.handlers[h].took == Some(w)
    ensures w in s.waiters && s.waiters[w] != Done(TimedOut)
  {
    assert HandlerOk(s, h);
    assert EntryOk(s, w);
  }

  /** A request that timed out was never dequeued by any handler. */
  lemma {:induction false} TimeoutWasUnanswered(steps: seq<Step>, w: nat, h: nat)
    requires IsRun(steps) && w in After(steps).waiters && After(steps).waiters[w] == Done(TimedOut)
    requires h in After(steps).handlers
    ensures After(steps).handlers[h].took != Some(w)
  {
    Reachable(steps);
    if After(steps).handlers[h].took == Some(w) {
      TakenIsNotTimedOut(After(steps), h, w);
    }
  }

  /** No two messages complete one request, and a message completes at most the one it took. */
  lemma {:induction false} OneVerdictPerRequest(steps: seq<Step>, g: nat, h: nat, w: nat)
    requires IsRun(steps) && g in After(steps).handlers && h in After(steps).handlers
    requires After(steps).handlers[g].took == Some(w) && After(steps).handlers[h].took == Some(w)
    ensures g == h
  {
    Reachable(steps);
    assert HandlerOk(After(steps), g) && HandlerOk(After(steps), h);
  }

  predicate IsHandlerStep(step: Step) {
    step.Arrive? || step.Check? || step.Dequeue? || step.DequeueNothing? || step.Write? || step.Complete?
  }

  lemma {:induction false} OthersKeepWaiters(s: State, step: Step)
    requires Possible(s, step) && (IsHandlerStep(step) || step.Register? || step.Release?)
    ensures Apply(s, step).waiters == s.waiters
  {
  }

  /** A waiter moves only itself, and only while its request has not ended. */
  lemma {:induction false} WaitersKeepOthers(s: State, step: Step, w: nat)
    requires Possible(s, step) && !(IsHandlerStep(step) || step.Register? || step.Release?)
    requires w in s.waiters && s.waiters[w].Done?
    ensures w in Apply(s, step).waiters && Apply(s, step).waiters[w] == s.waiters[w]
  {
    assert step.w != w;
  }

  /** A request that has ended stays ended, with the same outcome. */
  lemma {:induction false} OutcomeIsFinal(s: State, step: Step, w: nat)
    requires Possible(s, step) && w in s.waiters && s.waiters[w].Done?
    ensures w in Apply(s, step).waiters && Apply(s, step).waiters[w] == s.waiters[w]
  {
    if IsHandlerStep(step) || step.Register? || step.Release? {
      OthersKeepWaiters(s, step);
    } else {
      WaitersKeepOthers(s, step, w);
    }
  }

  /** However a run continues. */
  lemma {:induction false} OutcomeForever(steps: seq<Step>, more: seq<Step>, w: nat)
    requires IsRun(steps) && IsRun(steps + more) && w in After(steps).waiters && After(steps).waiters[w].Done?
    ensures w in After(steps + more).waiters && After(steps + more).waiters[w] == After(steps).waiters[w]
  {
    if more == [] {
      assert steps + more == steps;
    } else {
      var p := more[..|more| - 1];
      assert (steps + more)[..|steps + more| - 1] == steps + p;
      OutcomeForever(steps, p, w);
      OutcomeIsFinal(After(steps + p), more[|more| - 1], w);
    }
  }

  lemma {:induction false} OthersKeepHandlers(s: State, step: Step)
    requires Possible(s, step) && !IsHandlerStep(step)
    ensures Apply(s, step).handlers == s.handlers
  {
  }

  // ----- who the registered daemon is

  /** Socket p registered at step k; no socket has registered since and p has not closed. */
  ghost predicate HoldsSince(steps: seq<Step>, k: nat, p: nat) {
    && k < |steps| && steps[k] == Register(p)
    && forall j :: k < j < |steps| ==> !steps[j].Register? && steps[j] != Release(p)
  }

  /** Told from the steps alone. */
  ghost predicate IsDaemon(steps: seq<Step>, p: nat) {
    exists k: nat :: HoldsSince(steps, k, p)
  }

  lemma {:induction false} DaemonNext(steps: seq<Step>, step: Step, p: nat)
    ensures IsDaemon(steps + [step], p) <==>
              if step.Register? then step.port == p else IsDaemon(steps, p) && step != Release(p)
  {
    var all := steps + [step];
    if k: nat :| HoldsSince(all, k, p) {
      if k < |steps| {
        assert all[k] == steps[k] && all[|steps|] == step;
        assert forall j :: k < j < |steps| ==> all[j] == steps[j];
        assert HoldsSince(steps, k, p);
      }
    }
    if step == Register(p) {
      assert HoldsSince(all, |steps|, p);
    }
    if k: nat :| HoldsSince(steps, k, p) && !step.Register? && step != Release(p) {
      assert forall j :: k < j < |steps| ==> all[j] == steps[j];
      assert HoldsSince(all, k, p);
    }
  }

  lemma {:induction false} HandlersKeepDaemon(s: State, step: Step)
    requires Possible(s, step) && IsHandlerStep(step)
    ensures Apply(s, step).registered == s.registered && Apply(s, step).portid == s.portid
  {
  }

  lemma {:induction false} OthersKeepDaemon(s: State, step: Step)
    requires Possible(s, step) && !step.Register? && !step.Release?
    ensures Apply(s, step).registered == s.registered && Apply(s, step).portid == s.portid
  {
    if IsHandlerStep(step) {
      HandlersKeepDaemon(s, step);
    }
  }

  /** In every execution, the registered daemon is the socket that registered last, as long as that
      very socket has not closed since. The close of any other socket changes nothing. */
  lemma {:induction false} RegisteredExactly(steps: seq<Step>, p: nat)
    requires IsExecution(steps)
    ensures (After(steps).registered && After(steps).portid == p) <==> IsDaemon(steps, p)
  {
    if steps != [] {
      var front, step := steps[..|steps| - 1], steps[|steps| - 1];
      assert steps == front + [step];
      RegisteredExactly(front, p);
      DaemonNext(front, step, p);
      if !step.Register? && !step.Release? {
        OthersKeepDaemon(After(front), step);
      }
    }
  }

  /** A request goes on exactly when there is a registered daemon; otherwise it ends at once. */
  lemma {:induction false} BeginDecides(steps: seq<Step>, w: nat)
    requires IsExecution(steps) && Possible(After(steps), Begin(w))
    ensures w in Apply(After(steps), Begin(w)).waiters
    ensures Apply(After(steps), Begin(w)).waiters[w] ==
              if exists p :: IsDaemon(steps, p) then Checked else Done(NotConnected)
  {
    var s := After(steps);
    forall p ensures (s.registered && s.portid == p) <==> IsDaemon(steps, p) {
      RegisteredExactly(steps, p);
    }
    assert s.registered ==> IsDaemon(steps, s.portid);
  }

  /** A handler that has not been checked yet is not authorized. */
  lemma {:induction false} ArrivedIsUnchecked(steps: seq<Step>, h: nat)
    requires IsExecution(steps) && HandlerAt(After(steps), h, Arrived)
    ensures !After(steps).handlers[h].authorized
  {
    if steps != [] {
      var front, step := steps[..|steps| - 1], steps[|steps| - 1];
      if step.Arrive? && step.h == h {
      } else {
        ArrivedBefore(After(front), step, h);
        ArrivedIsUnchecked(front, h);
      }
    }
  }

  lemma {:induction false} ArrivedBefore(s: State, step: Step, h: nat)
    requires Possible(s, step) && HandlerAt(Apply(s, step), h, Arrived)
    requires !(step.Arrive? && step.h == h)
    ensures h in s.handlers && s.handlers[h] == Apply(s, step).handlers[h]
  {
    if !IsHandlerStep(step) {
      OthersKeepHandlers(s, step);
    }
  }

  /** The check authorizes exactly the messages that carry both attributes and come from the
      registered daemon, and answers the others in that order. */
  lemma {:induction false} CheckDecides(steps: seq<Step>, h: nat)
    requires IsExecution(steps) && Possible(After(steps), Check(h))
    ensures h in Apply(After(steps), Check(h)).handlers
    ensures var m, x := After(steps).handlers[h].msg, Apply(After(steps), Check(h)).handlers[h];
            && x.msg == m
            && (x.authorized <==> m.reqid.Some? && m.verdict.Some? && IsDaemon(steps, m.portid))
            && x.pc == (if m.reqid.None? || m.verdict.None? then Finished(BadMessage)
                        else if IsDaemon(steps, m.portid) then Authorized
                        else Finished(NotPermitted))
  {
    RegisteredExactly(steps, After(steps).handlers[h].msg.portid);
    ArrivedIsUnchecked(steps, h);
  }

  lemma {:induction false} CheckAuthorizes(s: State, step: Step, h: nat)
    requires Possible(s, step) && h in Apply(s, step).handlers && Apply(s, step).handlers[h].authorized
    ensures (h in s.handlers && s.handlers[h].authorized)
         || (step == Check(h) && s.registered && s.handlers[h].msg.portid == s.portid)
  {
    if !IsHandlerStep(step) {
      OthersKeepHandlers(s, step);
    } else {
      match step {
        case Arrive(g, _) => assert g != h;
        case Check(g) => assert g == h || s.handlers[h].authorized;
        case _ =>
      }
    }
  }

  /** Whatever the next step of an execution is: only the check lets a message through, and only
      one from the socket that registered last and is still open. */
  lemma {:induction false} OnlyCheckAuthorizes(steps: seq<Step>, step: Step, h: nat)
    requires IsExecution(steps) && Possible(After(steps), step)
    requires h in Apply(After(steps), step).handlers && Apply(After(steps), step).handlers[h].authorized
    ensures var s := After(steps);
            || (h in s.handlers && s.handlers[h].authorized)
            || (step == Check(h) && IsDaemon(steps, s.handlers[h].msg.portid))
  {
    CheckAuthorizes(After(steps), step, h);
    if step == Check(h) {
      RegisteredExactly(steps, After(steps).handlers[h].msg.portid);
    }
  }

  /** A message is never changed once it has arrived. */
  lemma {:induction false} MessageStays(s: State, step: Step, h: nat)
    requires Possible(s, step) && h in s.handlers
    ensures h in Apply(s, step).handlers && Apply(s, step).handlers[h].msg == s.handlers[h].msg
  {
    if !IsHandlerStep(step) {
      OthersKeepHandlers(s, step);
    } else {
      match step {
        case Arrive(g, _) => assert g != h;
        case _ =>
      }
    }
  }

  /** The k-th step checked message m of handler h, and its sender was the daemon just then. */
  ghost predicate CheckedAt(steps: seq<Step>, k: nat, h: nat, m: Message)
    requires IsExecution(steps)
  {
    && k < |steps| && steps[k] == Check(h) && IsExecution(steps[..k])
    && h in After(steps[..k]).handlers && After(steps[..k]).handlers[h].msg == m
    && IsDaemon(steps[..k], m.portid)
  }

  lemma {:induction false} CheckedEarlier(steps: seq<Step>, k: nat, h: nat, m: Message)
    requires steps != [] && IsExecution(steps) && CheckedAt(steps[..|steps| - 1], k, h, m)
    ensures CheckedAt(steps, k, h, m)
  {
    assert steps[..|steps| - 1][..k] == steps[..k];
  }

  /** In every execution an authorized message passed that check at some step. */
  lemma {:induction false} AuthorizedWasChecked(steps: seq<Step>, h: nat) returns (k: nat)
    requires IsExecution(steps) && h in After(steps).handlers && After(steps).handlers[h].authorized
    ensures CheckedAt(steps, k, h, After(steps).handlers[h].msg)
  {
    if steps != [] {
      var p, step := steps[..|steps| - 1], steps[|steps| - 1];
      OnlyCheckAuthorizes(p, step, h);
      assert h in After(p).handlers;
      MessageStays(After(p), step, h);
      if After(p).handlers[h].authorized {
        k := AuthorizedWasChecked(p, h);
        CheckedEarlier(steps, k, h, After(steps).handlers[h].msg);
      } else {
        k := |steps| - 1;
      }
    }
  }

  lemma {:induction false} SuccessHasTaker(s: State, w: nat, v: nat)
    requires Inv(s) && w in s.waiters && s.waiters[w] == Done(Verdict(v))
    ensures w in s.entries && s.entries[w].taker.Some?
  {
    if w in s.entries {
      assert EntryOk(s, w);
    }
  }

  lemma {:induction false} SuccessWasTaken(s: State, w: nat, v: nat, h: nat)
    requires Inv(s) && w in s.waiters && s.waiters[w] == Done(Verdict(v))
    requires w in s.entries && s.entries[w].taker == Some(h)
    ensures h in s.handlers
    ensures var e, x := s.entries[w], s.handlers[h];
            && x.authorized && x.took == Some(w) && x.msg.reqid == Some(e.reqid)
            && x.msg.verdict == Some(v) && IsVerdict(v)
  {
    assert EntryOk(s, w);
  }

  /** A request that returns success carries the value, CLEAN or MALICIOUS, of one verdict
      message that names it, and at some step of the run that message was checked while its sender
      was the socket that had registered last and was still open. */
  lemma {:induction false} VerdictIsGenuine(steps: seq<Step>, w: nat, v: nat) returns (h: nat, k: nat)
    requires IsRun(steps) && w in After(steps).waiters && After(steps).waiters[w] == Done(Verdict(v))
    ensures w in After(steps).entries && h in After(steps).handlers
    ensures var e, x := After(steps).entries[w], After(steps).handlers[h];
            && x.took == Some(w) && x.msg.reqid == Some(e.reqid) && x.msg.verdict == Some(v) && IsVerdict(v)
            && CheckedAt(steps, k, h, x.msg)
  {
    Reachable(steps);
    SuccessHasTaker(After(steps), w, v);
    h := After(steps).entries[w].taker.value;
    SuccessWasTaken(After(steps), w, v, h);
    k := AuthorizedWasChecked(steps, h);
  }
}
