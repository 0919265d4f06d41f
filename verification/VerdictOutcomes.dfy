/** How requests and verdict messages end, told from the steps of an execution alone. */
module VerdictOutcomes {
  import opened Options
  import opened VerdictChannel

  // ----- requests

  predicate StepOf(step: Step, w: nat) {
    match step
    case Begin(u) => u == w
    case Allocate(u, _) => u == w
    case Link(u) => u == w
    case Send(u, _) => u == w
    case UnlinkFailed(u) => u == w
    case FreeFailed(u) => u == w
    case Wake(u) => u == w
    case Expire(u) => u == w
    case Resolve(u) => u == w
    case FreeExpired(u) => u == w
    case SecondWake(u) => u == w
    case Read(u) => u == w
    case FreeRead(u) => u == w
    case _ => false
  }

  lemma {:induction false} OthersKeepWaiter(s: State, step: Step, w: nat)
    requires Possible(s, step) && !StepOf(step, w)
    ensures w in Apply(s, step).waiters <==> w in s.waiters
    ensures w in s.waiters ==> Apply(s, step).waiters[w] == s.waiters[w]
  {
    if IsHandlerStep(step) || step.Register? || step.Release? {
      OthersKeepWaiters(s, step);
    }
  }

  /** No socket was registered when the request began. */
  ghost predicate RefusedAt(steps: seq<Step>, k: nat, w: nat) {
    k < |steps| && steps[k] == Begin(w) && forall p :: !IsDaemon(steps[..k], p)
  }

  lemma {:induction false} RefusedNext(steps: seq<Step>, step: Step, w: nat)
    ensures (exists k: nat :: RefusedAt(steps + [step], k, w)) <==>
              || (exists k: nat :: RefusedAt(steps, k, w))
              || (step == Begin(w) && forall p :: !IsDaemon(steps, p))
  {
    var all := steps + [step];
    assert all[..|steps|] == steps && all[|steps|] == step;
    forall k: nat | k < |steps| ensures all[..k] == steps[..k] && all[k] == steps[k] {
    }
    if k: nat :| RefusedAt(all, k, w) {
      assert k < |steps| ==> RefusedAt(steps, k, w);
    }
    if k: nat :| RefusedAt(steps, k, w) {
      assert RefusedAt(all, k, w);
    }
    if step == Begin(w) && forall p :: !IsDaemon(steps, p) {
      assert RefusedAt(all, |steps|, w);
    }
  }

  predicate Refused(s: State, w: nat) {
    w in s.waiters && s.waiters[w] == Done(NotConnected)
  }

  lemma {:induction false} OnlyBeginRefuses(s: State, step: Step, w: nat)
    requires Possible(s, step) && step != Begin(w)
    ensures Refused(Apply(s, step), w) <==> Refused(s, w)
  {
    if !StepOf(step, w) {
      OthersKeepWaiter(s, step, w);
    }
  }

  lemma {:induction false} BeganIsKnown(steps: seq<Step>, w: nat)
    requires IsExecution(steps)
    ensures w in After(steps).waiters <==> Begin(w) in steps
  {
    if steps != [] {
      var front, step := steps[..|steps| - 1], steps[|steps| - 1];
      assert steps == front + [step];
      BeganIsKnown(front, w);
      if !StepOf(step, w) {
        OthersKeepWaiter(After(front), step, w);
      }
    }
  }

  /** A request is refused if and only if at its beginning every socket that had ever registered
      had been replaced or closed. */
  lemma {:induction false} NotConnectedExactly(steps: seq<Step>, w: nat)
    requires IsExecution(steps)
    ensures Refused(After(steps), w) <==> exists k: nat :: RefusedAt(steps, k, w)
  {
    if steps == [] {
    } else {
      var front, step := steps[..|steps| - 1], steps[|steps| - 1];
      assert steps == front + [step];
      NotConnectedExactly(front, w);
      RefusedNext(front, step, w);
      if step == Begin(w) {
        BeginDecides(front, w);
      } else {
        OnlyBeginRefuses(After(front), step, w);
      }
    }
  }

  predicate SendWentWrong(pc: WaiterPc) {
    pc == Failing || pc == FailedUnlinked || pc == Done(SendFailed)
  }

  predicate WasWoken(pc: WaiterPc) {
    pc == Reading || pc.HasRead? || (pc.Done? && pc.outcome.Verdict?)
  }

  predicate RanOut(pc: WaiterPc) {
    pc == Expired || pc == ExpiredUnlinked || pc == SecondWait || pc == Done(TimedOut)
  }

  /** Where the request is, against the steps that have happened. */
  ghost predicate Accounted(steps: seq<Step>, w: nat, pc: WaiterPc) {
    && (pc == Done(NoEntry) <==> Allocate(w, false) in steps)
    && (SendWentWrong(pc) <==> Send(w, false) in steps)
    && (WasWoken(pc) <==> Wake(w) in steps || SecondWake(w) in steps)
    && (RanOut(pc) <==> Expire(w) in steps && SecondWake(w) !in steps)
    && (pc == Done(SendFailed) <==> FreeFailed(w) in steps)
    && (pc == Done(TimedOut) <==> FreeExpired(w) in steps)
  }

  /** How a request moves in its own steps. */
  predicate Moves(pc: WaiterPc, step: Step, to: WaiterPc) {
    match step
    case Allocate(_, ok) => pc == Checked && to == if ok then Allocated else Done(NoEntry)
    case Link(_) => pc == Allocated && to == Linked
    case Send(_, ok) => pc == Linked && to == if ok then Waiting else Failing
    case UnlinkFailed(_) => pc == Failing && to == FailedUnlinked
    case FreeFailed(_) => pc == FailedUnlinked && to == Done(SendFailed)
    case Wake(_) => pc == Waiting && to == Reading
    case Expire(_) => pc == Waiting && to == Expired
    case Resolve(_) => pc == Expired && (to == ExpiredUnlinked || to == SecondWait)
    case FreeExpired(_) => pc == ExpiredUnlinked && to == Done(TimedOut)
    case SecondWake(_) => pc == SecondWait && to == Reading
    case Read(_) => pc == Reading && to.HasRead?
    case FreeRead(_) => pc.HasRead? && to.Done? && to.outcome.Verdict?
    case _ => false
  }

  lemma {:induction false} OwnStepMoves(s: State, step: Step, w: nat)
    requires Possible(s, step) && StepOf(step, w) && !step.Begin?
    ensures w in s.waiters && w in Apply(s, step).waiters
    ensures Moves(s.waiters[w], step, Apply(s, step).waiters[w])
  {
  }

  lemma {:induction false} OwnStepIsKnown(s: State, step: Step, w: nat)
    requires Possible(s, step) && StepOf(step, w)
    ensures w in Apply(s, step).waiters
  {
    if !step.Begin? {
      OwnStepMoves(s, step, w);
    }
  }

  lemma {:induction false} MoveAccounts(steps: seq<Step>, pc: WaiterPc, step: Step, w: nat, to: WaiterPc)
    requires Accounted(steps, w, pc) && StepOf(step, w) && Moves(pc, step, to)
    ensures Accounted(steps + [step], w, to)
  {
  }

  lemma {:induction false} OtherStepAccounts(steps: seq<Step>, pc: WaiterPc, step: Step, w: nat)
    requires Accounted(steps, w, pc) && !StepOf(step, w)
    ensures Accounted(steps + [step], w, pc)
  {
  }

  lemma {:induction false} NothingBefore(steps: seq<Step>, w: nat, step: Step)
    requires IsExecution(steps) && w !in After(steps).waiters && StepOf(step, w)
    ensures step !in steps
  {
    if steps != [] {
      var front, last := steps[..|steps| - 1], steps[|steps| - 1];
      assert steps == front + [last];
      if StepOf(last, w) {
        OwnStepIsKnown(After(front), last, w);
      } else {
        OthersKeepWaiter(After(front), last, w);
        NothingBefore(front, w, step);
      }
    }
  }

  lemma {:induction false} BeginAccounts(steps: seq<Step>, w: nat)
    requires IsExecution(steps) && Possible(After(steps), Begin(w))
    ensures Accounted(steps + [Begin(w)], w, Apply(After(steps), Begin(w)).waiters[w])
  {
    NothingBefore(steps, w, Allocate(w, false));
    NothingBefore(steps, w, Send(w, false));
    NothingBefore(steps, w, Wake(w));
    NothingBefore(steps, w, SecondWake(w));
    NothingBefore(steps, w, Expire(w));
    NothingBefore(steps, w, FreeFailed(w));
    NothingBefore(steps, w, FreeExpired(w));
  }

  /** The way a request ends is the way its steps went: without an entry if and only if there was no
      memory, with a failed send if and only if it failed, by a timeout if and only if the wait ran
      out and no completion came in the second one, with a verdict only after a wake-up. */
  lemma {:induction false} OutcomeFromSteps(steps: seq<Step>, w: nat)
    requires IsExecution(steps) && w in After(steps).waiters
    ensures Accounted(steps, w, After(steps).waiters[w])
  {
    var front, step := steps[..|steps| - 1], steps[|steps| - 1];
    assert steps == front + [step];
    if step == Begin(w) {
      BeginAccounts(front, w);
    } else if StepOf(step, w) {
      OwnStepMoves(After(front), step, w);
      OutcomeFromSteps(front, w);
      MoveAccounts(front, After(front).waiters[w], step, w, After(steps).waiters[w]);
    } else {
      OthersKeepWaiter(After(front), step, w);
      OutcomeFromSteps(front, w);
      OtherStepAccounts(front, After(front).waiters[w], step, w);
    }
  }

  // ----- messages

  lemma {:induction false} AuthorizedStays(s: State, step: Step, h: nat)
    requires Possible(s, step) && h in s.handlers && s.handlers[h].authorized
    ensures h in Apply(s, step).handlers && Apply(s, step).handlers[h].authorized
  {
    if !IsHandlerStep(step) {
      OthersKeepHandlers(s, step);
    } else {
      match step {
        case Arrive(g, _) => assert g != h;
        case _ =>
      }
    }
  }

  lemma {:induction false} CheckedIsAuthorized(steps: seq<Step>, k: nat, h: nat, m: Message)
    requires IsExecution(steps) && CheckedAt(steps, k, h, m) && m.reqid.Some? && m.verdict.Some?
    ensures h in After(steps).handlers && After(steps).handlers[h].authorized
    ensures After(steps).handlers[h].msg == m
  {
    var front, step := steps[..|steps| - 1], steps[|steps| - 1];
    assert k < |front| ==> front[..k] == steps[..k];
    if k < |front| {
      CheckedIsAuthorized(front, k, h, m);
      AuthorizedStays(After(front), step, h);
      MessageStays(After(front), step, h);
    } else {
      assert steps[..k] == front;
      CheckDecides(front, h);
    }
  }

  /** A message counts as the daemon's if and only if at some step it was checked, complete, while
      its sender was the socket that had registered last and was still open. */
  lemma {:induction false} AuthorizedExactly(steps: seq<Step>, h: nat)
    requires IsExecution(steps) && h in After(steps).handlers
    ensures var x := After(steps).handlers[h];
            x.authorized <==> x.msg.reqid.Some? && x.msg.verdict.Some? && exists k: nat :: CheckedAt(steps, k, h, x.msg)
  {
    var m := After(steps).handlers[h].msg;
    if After(steps).handlers[h].authorized {
      var k := AuthorizedWasChecked(steps, h);
      AuthorizedIsComplete(steps, h);
    }
    if m.reqid.Some? && m.verdict.Some? {
      forall k: nat | CheckedAt(steps, k, h, m) ensures After(steps).handlers[h].authorized {
        CheckedIsAuthorized(steps, k, h, m);
      }
    }
  }

  lemma {:induction false} AuthorizedIsComplete(steps: seq<Step>, h: nat)
    requires IsExecution(steps) && h in After(steps).handlers && After(steps).handlers[h].authorized
    ensures After(steps).handlers[h].msg.reqid.Some? && After(steps).handlers[h].msg.verdict.Some?
  {
    if steps != [] {
      var front, step := steps[..|steps| - 1], steps[|steps| - 1];
      OnlyCheckAuthorizes(front, step, h);
      if h in After(front).handlers && After(front).handlers[h].authorized {
        AuthorizedIsComplete(front, h);
        MessageStays(After(front), step, h);
      }
    }
  }

  /** What a finished handler answered: BadMessage for a message that lacks an attribute, NotPermitted
      for one that is not the daemon's, BadMessage for a value other than 0 and 1, Stale when it took
      no request and Completed when it took one. */
  ghost predicate AnswerOk(x: Handler) {
    match x.pc
    case Arrived => !x.authorized && x.took == None
    case Authorized => x.authorized && x.msg.reqid.Some? && x.msg.verdict.Some? && x.took == None
    case Dequeued(_) => x.authorized && Complete01(x.msg) && x.took.Some?
    case Written(_) => x.authorized && Complete01(x.msg) && x.took.Some?
    case Finished(code) =>
      code == (if x.msg.reqid.None? || x.msg.verdict.None? then BadMessage
               else if !x.authorized then NotPermitted
               else if x.msg.verdict.value != 0 && x.msg.verdict.value != 1 then BadMessage
               else if x.took.None? then Stale
               else Completed)
  }

  predicate Complete01(m: Message) {
    m.reqid.Some? && (m.verdict == Some(0) || m.verdict == Some(1))
  }

  predicate Takes(step: Step) {
    step.Dequeue? || step.Write? || step.Complete?
  }

  lemma {:induction false} TakersKeepHandler(s: State, step: Step, h: nat)
    requires Possible(s, step) && Takes(step) && step.h != h
    ensures h in Apply(s, step).handlers <==> h in s.handlers
    ensures h in s.handlers ==> Apply(s, step).handlers[h] == s.handlers[h]
  {
  }

  lemma {:induction false} IdlersKeepHandler(s: State, step: Step, h: nat)
    requires Possible(s, step) && IsHandlerStep(step) && !Takes(step) && step.h != h
    ensures h in Apply(s, step).handlers <==> h in s.handlers
    ensures h in s.handlers ==> Apply(s, step).handlers[h] == s.handlers[h]
  {
    match step {
      case Arrive(_, _) =>
      case Check(_) => assert Apply(s, step).handlers == CheckedBy(s, step.h).handlers;
      case DequeueNothing(_) =>
    }
  }

  lemma {:induction false} CheckAnswers(s: State, h: nat)
    requires Possible(s, Check(h)) && AnswerOk(s.handlers[h])
    ensures h in CheckedBy(s, h).handlers && AnswerOk(CheckedBy(s, h).handlers[h])
  {
  }

  lemma {:induction false} NothingAnswers(s: State, h: nat)
    requires Possible(s, DequeueNothing(h)) && AnswerOk(s.handlers[h])
    requires s.handlers[h].msg.reqid.Some? && s.handlers[h].msg.verdict.Some?
    ensures h in NothingFound(s, h).handlers && AnswerOk(NothingFound(s, h).handlers[h])
  {
  }

  lemma {:induction false} TakerAnswers(s: State, step: Step, h: nat)
    requires Possible(s, step) && Takes(step) && step.h == h && AnswerOk(s.handlers[h])
    ensures h in Apply(s, step).handlers && AnswerOk(Apply(s, step).handlers[h])
  {
  }

  lemma {:induction false} OwnHandlerStep(s: State, step: Step, h: nat)
    requires Possible(s, step) && IsHandlerStep(step) && step.h == h
    requires h in s.handlers ==> AnswerOk(s.handlers[h])
    ensures h in Apply(s, step).handlers && AnswerOk(Apply(s, step).handlers[h])
  {
    match step {
      case Arrive(_, _) =>
      case Check(_) => CheckAnswers(s, h);
      case DequeueNothing(_) => NothingAnswers(s, h);
      case _ => TakerAnswers(s, step, h);
    }
  }

  lemma {:induction false} AnswerStep(s: State, step: Step, h: nat)
    requires Possible(s, step) && h in Apply(s, step).handlers
    requires h in s.handlers ==> AnswerOk(s.handlers[h])
    ensures AnswerOk(Apply(s, step).handlers[h])
  {
    if !IsHandlerStep(step) {
      OthersKeepHandlers(s, step);
    } else if step.h != h {
      if Takes(step) {
        TakersKeepHandler(s, step, h);
      } else {
        IdlersKeepHandler(s, step, h);
      }
    } else {
      OwnHandlerStep(s, step, h);
    }
  }

  lemma {:induction false} AnswerExactly(steps: seq<Step>, h: nat)
    requires IsExecution(steps) && h in After(steps).handlers
    ensures AnswerOk(After(steps).handlers[h])
  {
    var front, step := steps[..|steps| - 1], steps[|steps| - 1];
    if h in After(front).handlers {
      AnswerExactly(front, h);
    }
    AnswerStep(After(front), step, h);
  }
}
