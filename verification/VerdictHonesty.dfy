/** The verdict channel with a daemon that answers only what it was sent, and with one that does not. */
module VerdictHonesty {
  import opened Options
  import opened VerdictChannel

  // ----- an honest daemon

  /** The registered daemon names only request numbers it was sent; others may say anything. */
  predicate HonestIfRegistered(s: State, m: Message) {
    s.registered && m.portid == s.portid && m.reqid.Some? ==> m.reqid.value in s.sent
  }

  predicate HonestStep(s: State, step: Step) {
    Possible(s, step) && (step.Check? ==> HonestIfRegistered(s, s.handlers[step.h].msg))
  }

  /** The executions in which every message that was checked met this. */
  predicate IsHonest(steps: seq<Step>)
    ensures IsHonest(steps) ==> IsExecution(steps)
    decreases |steps|
  {
    steps == [] || (IsHonest(steps[..|steps| - 1]) && HonestStep(After(steps[..|steps| - 1]), steps[|steps| - 1]))
  }

  /** Not handed over to a daemon: on the way there, or returned with a failed send. */
  predicate Unsent(pc: WaiterPc) {
    pc == Allocated || pc == Linked || pc == Failing || pc == FailedUnlinked || pc == Done(SendFailed)
  }

  /** The number of a request is sent if a handler has taken its entry, and not before it is sent. */
  predicate SentOk(s: State, w: nat)
    requires w in s.entries
  {
    && w in s.waiters
    && (Unsent(s.waiters[w]) ==> s.entries[w].reqid !in s.sent)
    && (s.entries[w].taker.Some? ==> s.entries[w].reqid in s.sent)
  }

  /** A message that has passed the check names a number that was sent. */
  predicate NamesSent(s: State, h: nat)
    requires h in s.handlers
  {
    s.handlers[h].pc == Authorized && s.handlers[h].msg.reqid.Some? ==> s.handlers[h].msg.reqid.value in s.sent
  }

  ghost predicate HonestInv(s: State) {
    && (forall r :: r in s.sent ==> r <= s.counter)
    && (forall w :: w in s.entries ==> SentOk(s, w))
    && (forall h :: h in s.handlers ==> NamesSent(s, h))
  }

  lemma {:induction false} WaiterKeeps(s: State, t: State, w: nat)
    requires Inv(s) && HonestInv(s) && w in s.entries && w in t.entries && w in t.waiters
    requires t.handlers == s.handlers && t.counter == s.counter
    requires t.waiters == s.waiters[w := t.waiters[w]] && t.entries == s.entries[w := t.entries[w]]
    requires t.entries[w].reqid == s.entries[w].reqid && t.entries[w].taker == s.entries[w].taker
    requires if Unsent(t.waiters[w]) then Unsent(s.waiters[w]) && t.sent == s.sent
             else t.sent == s.sent || t.sent == s.sent + {s.entries[w].reqid}
    ensures HonestInv(t)
  {
    assert EntryOk(s, w) && SentOk(s, w);
    forall u | u in t.entries ensures SentOk(t, u) {
      assert SentOk(s, u);
    }
    forall h | h in t.handlers ensures NamesSent(t, h) {
      assert NamesSent(s, h);
    }
  }

  lemma {:induction false} HandlerKeeps(s: State, t: State, h: nat)
    requires HonestInv(s) && h in t.handlers && NamesSent(t, h)
    requires t.handlers == s.handlers[h := t.handlers[h]] && t.entries == s.entries
    requires t.waiters == s.waiters && t.counter == s.counter && t.sent == s.sent
    ensures HonestInv(t)
  {
    forall u | u in t.entries ensures SentOk(t, u) {
      assert SentOk(s, u);
    }
    forall g | g in t.handlers ensures NamesSent(t, g) {
      if g != h {
        assert NamesSent(s, g);
      }
    }
  }

  lemma {:induction false} TakerKeeps(s: State, t: State, h: nat, w: nat)
    requires HonestInv(s) && h in t.handlers && NamesSent(t, h) && w in s.entries && w in t.entries
    requires t.handlers == s.handlers[h := t.handlers[h]] && t.entries == s.entries[w := t.entries[w]]
    requires t.entries[w].reqid == s.entries[w].reqid
    requires t.entries[w].taker == s.entries[w].taker || s.entries[w].reqid in s.sent
    requires t.waiters == s.waiters && t.counter == s.counter && t.sent == s.sent
    ensures HonestInv(t)
  {
    forall u | u in t.entries ensures SentOk(t, u) {
      assert SentOk(s, u);
    }
    forall g | g in t.handlers ensures NamesSent(t, g) {
      if g != h {
        assert NamesSent(s, g);
      }
    }
  }

  lemma {:induction false} DaemonKeeps(s: State, step: Step)
    requires Inv(s) && HonestInv(s) && Possible(s, step) && (step.Register? || step.Release? || step.Begin?)
    ensures HonestInv(Apply(s, step))
  {
    var t := Apply(s, step);
    forall w | w in t.entries ensures SentOk(t, w) {
      assert EntryOk(s, w) && SentOk(s, w);
    }
    forall h | h in t.handlers ensures NamesSent(t, h) {
      assert NamesSent(s, h);
    }
  }

  lemma {:induction false} AllocateKeeps(s: State, w: nat, ok: bool)
    requires Inv(s) && HonestInv(s) && Possible(s, Allocate(w, ok))
    ensures HonestInv(Apply(s, Allocate(w, ok)))
  {
    var t := Apply(s, Allocate(w, ok));
    forall u | u in t.entries ensures SentOk(t, u) {
      if u in s.entries {
        assert EntryOk(s, u) && SentOk(s, u);
      }
    }
    forall h | h in t.handlers ensures NamesSent(t, h) {
      assert NamesSent(s, h);
    }
  }

  predicate IsWaiterStep(step: Step) {
    step.Link? || step.Send? || step.UnlinkFailed? || step.FreeFailed? || step.Wake? || step.Expire?
    || step.Resolve? || step.FreeExpired? || step.SecondWake? || step.Read? || step.FreeRead?
  }

  lemma {:induction false} SendKeeps(s: State, w: nat, ok: bool)
    requires Inv(s) && HonestInv(s) && At(s, w, Linked)
    ensures HonestInv(HandedOver(s, w, ok))
  {
    WaiterKeeps(s, HandedOver(s, w, ok), w);
  }

  lemma {:induction false} UnsentKeeps(s: State, step: Step)
    requires Inv(s) && HonestInv(s) && Possible(s, step) && (step.Link? || step.UnlinkFailed? || step.FreeFailed?)
    ensures HonestInv(Apply(s, step))
  {
    WaiterKeeps(s, Apply(s, step), step.w);
  }

  lemma {:induction false} WaitKeeps(s: State, step: Step)
    requires Inv(s) && HonestInv(s) && Possible(s, step)
    requires step.Wake? || step.Expire? || step.SecondWake? || step.Read?
    ensures HonestInv(Apply(s, step))
  {
    WaiterKeeps(s, Apply(s, step), step.w);
  }

  lemma {:induction false} ResolveKeeps(s: State, w: nat)
    requires Inv(s) && HonestInv(s) && At(s, w, Expired)
    ensures HonestInv(Resolved(s, w))
  {
    WaiterKeeps(s, Resolved(s, w), w);
  }

  lemma {:induction false} ReturnKeeps(s: State, w: nat)
    requires Inv(s) && HonestInv(s) && w in s.entries && w in s.waiters && s.waiters[w].HasRead?
    ensures HonestInv(Returned(s, w))
  {
    WaiterKeeps(s, Returned(s, w), w);
  }

  lemma {:induction false} TimeoutKeeps(s: State, w: nat)
    requires Inv(s) && HonestInv(s) && At(s, w, ExpiredUnlinked)
    ensures HonestInv(Free(s, w, TimedOut))
  {
    WaiterKeeps(s, Free(s, w, TimedOut), w);
  }

  lemma {:induction false} WaiterStepKeeps(s: State, step: Step)
    requires Inv(s) && HonestInv(s) && Possible(s, step) && IsWaiterStep(step)
    ensures HonestInv(Apply(s, step))
  {
    if step.Send? {
      SendKeeps(s, step.w, step.ok);
    } else if step.Link? || step.UnlinkFailed? || step.FreeFailed? {
      UnsentKeeps(s, step);
    } else if step.Wake? || step.Expire? || step.SecondWake? || step.Read? {
      WaitKeeps(s, step);
    } else if step.Resolve? {
      ResolveKeeps(s, step.w);
    } else if step.FreeExpired? {
      TimeoutKeeps(s, step.w);
    } else {
      ReturnKeeps(s, step.w);
    }
  }

  lemma {:induction false} CheckKeeps(s: State, h: nat)
    requires HonestInv(s) && HandlerAt(s, h, Arrived) && HonestIfRegistered(s, s.handlers[h].msg)
    ensures HonestInv(CheckedBy(s, h))
  {
    HandlerKeeps(s, CheckedBy(s, h), h);
  }

  lemma {:induction false} IdleStepKeeps(s: State, step: Step)
    requires HonestInv(s) && HonestStep(s, step) && (step.Arrive? || step.Check? || step.DequeueNothing?)
    ensures HonestInv(Apply(s, step))
  {
    if step.Check? {
      CheckKeeps(s, step.h);
    } else {
      HandlerKeeps(s, Apply(s, step), step.h);
    }
  }

  lemma {:induction false} TakerStepKeeps(s: State, step: Step)
    requires HonestInv(s) && Possible(s, step) && (step.Dequeue? || step.Write? || step.Complete?)
    ensures HonestInv(Apply(s, step))
  {
    assert NamesSent(s, step.h);
    TakerKeeps(s, Apply(s, step), step.h, if step.Dequeue? then step.w else s.handlers[step.h].pc.w);
  }

  lemma {:induction false} StepKeeps(s: State, step: Step)
    requires Inv(s) && HonestInv(s) && HonestStep(s, step)
    ensures HonestInv(Apply(s, step))
  {
    if IsWaiterStep(step) {
      WaiterStepKeeps(s, step);
    } else if step.Allocate? {
      AllocateKeeps(s, step.w, step.ok);
    } else if step.Register? || step.Release? || step.Begin? {
      DaemonKeeps(s, step);
    } else if step.Arrive? || step.Check? || step.DequeueNothing? {
      IdleStepKeeps(s, step);
    } else {
      TakerStepKeeps(s, step);
    }
  }

  /** No handler has the entry of a request whose send failed: its number was never sent. */
  lemma {:induction false} UnsentIsUntaken(s: State, w: nat)
    requires Inv(s) && HonestInv(s) && w in s.entries && Unsent(s.waiters[w])
    ensures s.entries[w].taker == None && !InUse(s, w)
  {
    assert SentOk(s, w);
    if h :| h in s.handlers && Committed(s, h, w) {
      CommittedIsTaken(s, h, w);
    }
  }

  /** Every execution with an honest daemon is one in which no failed request is freed in use. */
  lemma {:induction false} HonestIsRun(steps: seq<Step>)
    requires IsHonest(steps)
    ensures IsRun(steps) && HonestInv(After(steps))
  {
    if steps != [] {
      var p, step := steps[..|steps| - 1], steps[|steps| - 1];
      HonestIsRun(p);
      Reachable(p);
      if step.FreeFailed? {
        UnsentIsUntaken(After(p), step.w);
      }
      StepKeeps(After(p), step);
    }
  }

  /** With an honest daemon every execution is safe, and a failed send takes back an entry that is
      still on the list. */
  lemma {:induction false} HonestIsSafe(steps: seq<Step>, w: nat)
    requires IsHonest(steps)
    ensures IsRun(steps) && Safe(After(steps))
    ensures At(After(steps), w, Failing) ==> After(steps).entries[w].linked && After(steps).entries[w].taker == None
  {
    HonestIsRun(steps);
    SafeExactly(steps);
    Reachable(steps);
    if At(After(steps), w, Failing) {
      FailingIsLinked(After(steps), w);
    }
  }

  lemma {:induction false} FailingIsLinked(s: State, w: nat)
    requires Inv(s) && HonestInv(s) && At(s, w, Failing)
    ensures s.entries[w].linked && s.entries[w].taker == None
  {
    UnsentIsUntaken(s, w);
    assert EntryOk(s, w);
  }

  // ----- a daemon that answers too soon

  lemma {:induction false} Continue(steps: seq<Step>, step: Step)
    requires IsExecution(steps) && Possible(After(steps), step)
    ensures IsExecution(steps + [step]) && After(steps + [step]) == Apply(After(steps), step)
  {
    assert (steps + [step])[..|steps|] == steps;
  }

  /** A request is on the list but not handed over yet, and the daemon on `port` is registered. */
  ghost predicate Preparing(s: State, w: nat, port: nat) {
    At(s, w, Linked) && s.entries[w].linked && s.registered && s.portid == port
  }

  lemma {:induction false} StartRequest(steps: seq<Step>, w: nat, port: nat) returns (more: seq<Step>)
    requires IsExecution(steps) && w !in After(steps).waiters && w !in After(steps).entries
    ensures IsExecution(more) && steps <= more && After(more).handlers == After(steps).handlers
    ensures var s := After(more);
            w in s.waiters && s.waiters[w] == Checked && w !in s.entries && s.registered && s.portid == port
  {
    Continue(steps, Register(port));
    more := steps + [Register(port)];
    Continue(more, Begin(w));
    more := more + [Begin(w)];
  }

  lemma {:induction false} Prepare(steps: seq<Step>, w: nat, port: nat) returns (more: seq<Step>)
    requires IsExecution(steps) && w !in After(steps).waiters && w !in After(steps).entries
    ensures IsExecution(more) && steps <= more && Preparing(After(more), w, port)
    ensures After(more).handlers == After(steps).handlers
  {
    more := StartRequest(steps, w, port);
    Continue(more, Allocate(w, true));
    more := more + [Allocate(w, true)];
    Continue(more, Link(w));
    more := more + [Link(w)];
  }

  lemma {:induction false} PassCheck(steps: seq<Step>, w: nat, port: nat, h: nat, m: Message)
    returns (more: seq<Step>)
    requires IsExecution(steps) && Preparing(After(steps), w, port) && h !in After(steps).handlers
    requires m.portid == port && m.reqid.Some? && m.verdict.Some?
    ensures IsExecution(more) && steps <= more && Preparing(After(more), w, port)
    ensures After(more).entries == After(steps).entries
    ensures HandlerAt(After(more), h, Authorized) && After(more).handlers[h].msg == m
  {
    Continue(steps, Arrive(h, m));
    more := steps + [Arrive(h, m)];
    Continue(more, Check(h));
    more := more + [Check(h)];
  }

  /** Handler h has taken entry w off the list, has a verdict for it and has not written it yet. */
  ghost predicate Holds(s: State, h: nat, w: nat) {
    HandlerAt(s, h, Dequeued(w)) && s.handlers[h].msg.verdict.Some? && w in s.entries
  }

  /** The message names the request before it was sent; it is taken off the list. */
  lemma {:induction false} AnswerTooSoon(steps: seq<Step>, w: nat, port: nat, h: nat, v: nat)
    returns (more: seq<Step>)
    requires IsExecution(steps) && Preparing(After(steps), w, port) && h !in After(steps).handlers && IsVerdict(v)
    ensures IsExecution(more) && steps <= more && At(After(more), w, Linked) && Holds(After(more), h, w)
  {
    more := PassCheck(steps, w, port, h, Message(port, Some(After(steps).entries[w].reqid), Some(v)));
    Continue(more, Dequeue(h, w));
    more := more + [Dequeue(h, w)];
  }

  /** The send fails: the entry is removed once more, which touches no other, and freed. */
  lemma {:induction false} FailToSend(steps: seq<Step>, w: nat, h: nat) returns (more: seq<Step>)
    requires IsExecution(steps) && At(After(steps), w, Linked) && Holds(After(steps), h, w)
    ensures IsExecution(more) && steps <= more && Holds(After(more), h, w) && !After(more).entries[w].live
  {
    Continue(steps, Send(w, false));
    more := steps + [Send(w, false)];
    Continue(more, UnlinkFailed(w));
    more := more + [UnlinkFailed(w)];
    Continue(more, FreeFailed(w));
    more := more + [FreeFailed(w)];
  }

  /** With any other daemon safety fails from every state: a registered daemon that answers a number
      not yet sent, and a send that fails, lead to an execution after which the handler's next step
      writes the verdict into the entry that has been freed. */
  lemma {:induction false} HonestyIsNeeded(steps: seq<Step>, w: nat, port: nat, h: nat, v: nat)
    returns (more: seq<Step>)
    requires IsExecution(steps) && w !in After(steps).waiters && w !in After(steps).entries
    requires h !in After(steps).handlers && IsVerdict(v)
    ensures IsExecution(more) && steps <= more && !IsRun(more) && !IsHonest(more)
    ensures w in After(more).entries && !After(more).entries[w].live && HandlerAt(After(more), h, Dequeued(w))
    ensures IsExecution(more + [Write(h)]) && After(more + [Write(h)]).fault
  {
    more := Prepare(steps, w, port);
    more := AnswerTooSoon(more, w, port, h, v);
    more := FailToSend(more, w, h);
    Continue(more, Write(h));
    assert Dangles(After(more), h, w);
    SafeExactly(more);
    if IsHonest(more) {
      HonestIsRun(more);
    }
  }
}
