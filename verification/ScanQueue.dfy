/** The bounded scan queue: producers, a pool of workers, two condition variables and a
    shutdown. One step is one critical section; waking from a wait re-enters the section. */
module ScanQueue {
  import opened Options

  type Task = nat

  /** Asleep is waiting on queue_not_empty, Blocked on queue_not_full; `signalled` says that a
      signal or broadcast has already chosen this thread. */
  datatype WorkerPc = Top | Asleep(signalled: bool) | Handling(task: Task) | Exited
  datatype ProducerPc = Idle | Blocked(task: Task, signalled: bool)

  /** `accepted`, `taken` and `handled` record what enqueue returned true for, what workers
      dequeued, and what they finished. */
  datatype State = State(max: nat, queue: seq<Task>, shutting: bool,
                         workers: seq<WorkerPc>, producers: seq<ProducerPc>,
                         accepted: seq<Task>, taken: seq<Task>, handled: multiset<Task>)

  datatype Step =
    | Enqueue(p: nat, task: Task, wake: Option<nat>)
    | ProducerWakes(p: nat, wake: Option<nat>)
    | WorkerEnters(w: nat, wake: Option<nat>)
    | WorkerDone(w: nat)
    | Shutdown

  // ----- the two critical sections

  datatype ProducerMove = Push | Wait | Refuse
  datatype WorkerMove = Take | Sleep | Leave

  function ProducerSees(len: nat, max: nat, shutting: bool): ProducerMove {
    if len >= max && !shutting then Wait else if shutting then Refuse else Push
  }

  function WorkerSees(len: nat, shutting: bool): WorkerMove {
    if len == 0 && !shutting then Sleep else if len == 0 then Leave else Take
  }

  predicate Sleeper(workers: seq<WorkerPc>, w: nat) {
    w < |workers| && workers[w] == Asleep(false)
  }

  predicate BlockedOne(producers: seq<ProducerPc>, p: nat) {
    p < |producers| && producers[p].Blocked? && !producers[p].signalled
  }

  /** A signal wakes one waiting thread if there is one; which one is up to the system. */
  predicate WakesWorker(workers: seq<WorkerPc>, wake: Option<nat>) {
    match wake
    case Some(w) => Sleeper(workers, w)
    case None => forall w :: 0 <= w < |workers| ==> !Sleeper(workers, w)
  }

  predicate WakesProducer(producers: seq<ProducerPc>, wake: Option<nat>) {
    match wake
    case Some(p) => BlockedOne(producers, p)
    case None => forall p :: 0 <= p < |producers| ==> !BlockedOne(producers, p)
  }

  function SignalWorker(workers: seq<WorkerPc>, wake: Option<nat>): seq<WorkerPc>
    requires WakesWorker(workers, wake)
  {
    if wake.Some? then workers[wake.value := Asleep(true)] else workers
  }

  function SignalProducer(producers: seq<ProducerPc>, wake: Option<nat>): seq<ProducerPc>
    requires WakesProducer(producers, wake)
  {
    if wake.Some? then producers[wake.value := Blocked(producers[wake.value].task, true)] else producers
  }

  function WakeAllWorkers(workers: seq<WorkerPc>): (r: seq<WorkerPc>)
    ensures |r| == |workers|
  {
    seq(|workers|, i requires 0 <= i < |workers| => if workers[i].Asleep? then Asleep(true) else workers[i])
  }

  function WakeAllProducers(producers: seq<ProducerPc>): (r: seq<ProducerPc>)
    ensures |r| == |producers|
  {
    seq(|producers|, i requires 0 <= i < |producers| =>
      if producers[i].Blocked? then Blocked(producers[i].task, true) else producers[i])
  }

  predicate Enabled(s: State, step: Step) {
    match step
    case Enqueue(p, _, wake) => p < |s.producers| && s.producers[p] == Idle && WakesWorker(s.workers, wake)
    case ProducerWakes(p, wake) => p < |s.producers| && s.producers[p].Blocked? && WakesWorker(s.workers, wake)
    case WorkerEnters(w, wake) =>
      w < |s.workers| && (s.workers[w] == Top || s.workers[w].Asleep?) && WakesProducer(s.producers, wake)
    case WorkerDone(w) => w < |s.workers| && s.workers[w].Handling?
    case Shutdown => true
  }

  function ProducerSection(s: State, p: nat, task: Task, wake: Option<nat>): (t: State)
    requires p < |s.producers| && WakesWorker(s.workers, wake)
    ensures |t.workers| == |s.workers|
  {
    match ProducerSees(|s.queue|, s.max, s.shutting)
    case Wait => s.(producers := s.producers[p := Blocked(task, false)])
    case Refuse => s.(producers := s.producers[p := Idle])
    case Push => s.(producers := s.producers[p := Idle], queue := s.queue + [task],
                    accepted := s.accepted + [task], workers := SignalWorker(s.workers, wake))
  }

  function WorkerSection(s: State, w: nat, wake: Option<nat>): (t: State)
    requires w < |s.workers| && WakesProducer(s.producers, wake)
    ensures |t.workers| == |s.workers|
  {
    match WorkerSees(|s.queue|, s.shutting)
    case Sleep => s.(workers := s.workers[w := Asleep(false)])
    case Leave => s.(workers := s.workers[w := Exited])
    case Take => s.(workers := s.workers[w := Handling(s.queue[0])], queue := s.queue[1..],
                    taken := s.taken + [s.queue[0]], producers := SignalProducer(s.producers, wake))
  }

  function HandledBy(s: State, w: nat): (t: State)
    requires w < |s.workers| && s.workers[w].Handling?
    ensures |t.workers| == |s.workers|
  {
    s.(workers := s.workers[w := Top], handled := s.handled + multiset{s.workers[w].task})
  }

  /** Sets the flag and broadcasts on both condition variables. */
  function ShutDown(s: State): (t: State)
    ensures |t.workers| == |s.workers|
  {
    s.(shutting := true, workers := WakeAllWorkers(s.workers), producers := WakeAllProducers(s.producers))
  }

  function Apply(s: State, step: Step): (t: State)
    requires Enabled(s, step)
    ensures |t.workers| == |s.workers|
  {
    match step
    case Enqueue(p, task, wake) => ProducerSection(s, p, task, wake)
    case ProducerWakes(p, wake) => ProducerSection(s, p, s.producers[p].task, wake)
    case WorkerEnters(w, wake) => WorkerSection(s, w, wake)
    case WorkerDone(w) => HandledBy(s, w)
    case Shutdown => ShutDown(s)
  }

  function Init(max: nat, workers: nat, producers: nat): State {
    State(max, [], false, seq(workers, _ => Top), seq(producers, _ => Idle), [], [], multiset{})
  }

  datatype Config = Config(max: nat, workers: nat, producers: nat)

  predicate IsRun(c: Config, steps: seq<Step>)
    decreases |steps|, 0
  {
    steps == [] || (IsRun(c, steps[..|steps| - 1]) && Enabled(After(c, steps[..|steps| - 1]), steps[|steps| - 1]))
  }

  function After(c: Config, steps: seq<Step>): State
    requires IsRun(c, steps)
    decreases |steps|, 1
  {
    if steps == [] then Init(c.max, c.workers, c.producers)
    else Apply(After(c, steps[..|steps| - 1]), steps[|steps| - 1])
  }

  // ----- counting threads

  function WorkersAt(workers: seq<WorkerPc>, pc: WorkerPc): nat {
    var n := |workers|;
    if n == 0 then 0 else WorkersAt(workers[..n - 1], pc) + (if workers[n - 1] == pc then 1 else 0)
  }

  function BlockedCount(producers: seq<ProducerPc>, signalled: bool): nat {
    var n := |producers|;
    if n == 0 then 0
    else BlockedCount(producers[..n - 1], signalled)
         + (if producers[n - 1].Blocked? && producers[n - 1].signalled == signalled then 1 else 0)
  }

  /** The tasks being handled right now. */
  function InHand(workers: seq<WorkerPc>): multiset<Task> {
    var n := |workers|;
    if n == 0 then multiset{} else InHand(workers[..n - 1]) + Held(workers[n - 1])
  }

  lemma {:induction false} WorkersAtUpdate(workers: seq<WorkerPc>, w: nat, to: WorkerPc, pc: WorkerPc)
    requires w < |workers|
    ensures WorkersAt(workers[w := to], pc) + (if workers[w] == pc then 1 else 0)
         == WorkersAt(workers, pc) + (if to == pc then 1 else 0)
  {
    var n := |workers|;
    if w < n - 1 {
      WorkersAtUpdate(workers[..n - 1], w, to, pc);
      assert workers[w := to][..n - 1] == workers[..n - 1][w := to];
    } else {
      assert workers[w := to][..n - 1] == workers[..n - 1];
    }
  }

  lemma {:induction false} BlockedUpdate(producers: seq<ProducerPc>, p: nat, to: ProducerPc, g: bool)
    requires p < |producers|
    ensures BlockedCount(producers[p := to], g)
           + (if producers[p].Blocked? && producers[p].signalled == g then 1 else 0)
         == BlockedCount(producers, g) + (if to.Blocked? && to.signalled == g then 1 else 0)
  {
    var n := |producers|;
    if p < n - 1 {
      BlockedUpdate(producers[..n - 1], p, to, g);
      assert producers[p := to][..n - 1] == producers[..n - 1][p := to];
    } else {
      assert producers[p := to][..n - 1] == producers[..n - 1];
    }
  }

  function Held(pc: WorkerPc): multiset<Task> {
    if pc.Handling? then multiset{pc.task} else multiset{}
  }

  lemma {:induction false} AddBoth(a: multiset<Task>, x: multiset<Task>, b: multiset<Task>, y: multiset<Task>,
                                   more: multiset<Task>)
    requires a + x == b + y
    ensures a + more + x == b + more + y
  {
    assert a + more + x == a + x + more;
    assert b + more + y == b + y + more;
  }

  lemma {:induction false} SwapLast(a: multiset<Task>, x: multiset<Task>, y: multiset<Task>)
    ensures a + x + y == a + y + x
  {
  }

  lemma {:induction false} InHandSnoc(front: seq<WorkerPc>, last: WorkerPc)
    ensures InHand(front + [last]) == InHand(front) + Held(last)
  {
    assert (front + [last])[..|front|] == front;
  }

  lemma {:induction false} InHandUpdate(workers: seq<WorkerPc>, w: nat, to: WorkerPc)
    requires w < |workers|
    ensures InHand(workers[w := to]) + Held(workers[w]) == InHand(workers) + Held(to)
  {
    var n := |workers|;
    var front, last := workers[..n - 1], workers[n - 1];
    assert workers == front + [last];
    InHandSnoc(front, last);
    if w < n - 1 {
      assert workers[w := to] == front[w := to] + [last];
      InHandSnoc(front[w := to], last);
      InHandUpdate(front, w, to);
      AddBoth(InHand(front[w := to]), Held(workers[w]), InHand(front), Held(to), Held(last));
    } else {
      assert workers[w := to] == front + [to];
      InHandSnoc(front, to);
      SwapLast(InHand(front), Held(to), Held(last));
    }
  }

  lemma {:induction false} NoneAt(workers: seq<WorkerPc>, pc: WorkerPc)
    ensures WorkersAt(workers, pc) == 0 <==> forall w :: 0 <= w < |workers| ==> workers[w] != pc
  {
    var n := |workers|;
    if n > 0 {
      NoneAt(workers[..n - 1], pc);
      assert forall w :: 0 <= w < n - 1 ==> workers[..n - 1][w] == workers[w];
    }
  }

  lemma {:induction false} NoneBlocked(producers: seq<ProducerPc>, g: bool)
    ensures BlockedCount(producers, g) == 0
       <==> forall p :: 0 <= p < |producers| ==> !(producers[p].Blocked? && producers[p].signalled == g)
  {
    var n := |producers|;
    if n > 0 {
      NoneBlocked(producers[..n - 1], g);
      assert forall p :: 0 <= p < n - 1 ==> producers[..n - 1][p] == producers[p];
    }
  }

  lemma {:induction false} InHandSame(a: seq<WorkerPc>, b: seq<WorkerPc>)
    requires |a| == |b| && forall i :: 0 <= i < |a| ==> Held(a[i]) == Held(b[i])
    ensures InHand(a) == InHand(b)
  {
    if a != [] {
      InHandSame(a[..|a| - 1], b[..|b| - 1]);
    }
  }

  // ----- the invariant

  /** No wake-up is lost: unless every sleeping worker has been signalled, at least as many
      have been as there are tasks; and likewise for producers and free slots. */
  ghost predicate NoLostWakeups(s: State) {
    && (WorkersAt(s.workers, Asleep(false)) > 0 ==> WorkersAt(s.workers, Asleep(true)) >= |s.queue|)
    && (BlockedCount(s.producers, false) > 0 ==> BlockedCount(s.producers, true) >= s.max - |s.queue|)
  }

  ghost predicate Ledger(s: State) {
    && s.accepted == s.taken + s.queue
    && multiset(s.taken) == s.handled + InHand(s.workers)
  }

  ghost predicate ShutdownRules(s: State) {
    && (s.shutting ==> WorkersAt(s.workers, Asleep(false)) == 0 && BlockedCount(s.producers, false) == 0)
    && (WorkersAt(s.workers, Exited) > 0 ==> s.shutting && s.queue == [])
  }

  ghost predicate Inv(s: State) {
    |s.queue| <= s.max && NoLostWakeups(s) && Ledger(s) && ShutdownRules(s)
  }

  lemma {:induction false} ProducerWaits(s: State, p: nat, task: Task)
    requires Inv(s) && p < |s.producers| && |s.queue| >= s.max && !s.shutting
    ensures Inv(s.(producers := s.producers[p := Blocked(task, false)]))
  {
    BlockedUpdate(s.producers, p, Blocked(task, false), true);
    BlockedUpdate(s.producers, p, Blocked(task, false), false);
  }

  lemma {:induction false} ProducerRefused(s: State, p: nat)
    requires Inv(s) && p < |s.producers| && s.shutting
    ensures Inv(s.(producers := s.producers[p := Idle]))
  {
    BlockedUpdate(s.producers, p, Idle, false);
  }

  lemma {:induction false} SignalCounts(workers: seq<WorkerPc>, wake: Option<nat>)
    requires WakesWorker(workers, wake)
    ensures var r := SignalWorker(workers, wake);
            && WorkersAt(r, Exited) == WorkersAt(workers, Exited) && InHand(r) == InHand(workers)
            && (if wake.Some? then
                  && WorkersAt(r, Asleep(false)) + 1 == WorkersAt(workers, Asleep(false))
                  && WorkersAt(r, Asleep(true)) == WorkersAt(workers, Asleep(true)) + 1
                else WorkersAt(workers, Asleep(false)) == 0 && r == workers)
  {
    if wake.Some? {
      WorkersAtUpdate(workers, wake.value, Asleep(true), Asleep(false));
      WorkersAtUpdate(workers, wake.value, Asleep(true), Asleep(true));
      WorkersAtUpdate(workers, wake.value, Asleep(true), Exited);
      InHandUpdate(workers, wake.value, Asleep(true));
      assert InHand(SignalWorker(workers, wake)) + multiset{} == InHand(workers) + multiset{};
      assert forall m: multiset<Task> :: m + multiset{} == m;
    } else {
      forall w | 0 <= w < |workers| ensures workers[w] != Asleep(false) {
        assert !Sleeper(workers, w);
      }
      NoneAt(workers, Asleep(false));
    }
  }

  lemma {:induction false} SignalProducerCounts(producers: seq<ProducerPc>, wake: Option<nat>)
    requires WakesProducer(producers, wake)
    ensures var r := SignalProducer(producers, wake);
            if wake.Some? then
              && BlockedCount(r, false) + 1 == BlockedCount(producers, false)
              && BlockedCount(r, true) == BlockedCount(producers, true) + 1
            else BlockedCount(producers, false) == 0 && r == producers
  {
    if wake.Some? {
      var to := Blocked(producers[wake.value].task, true);
      BlockedUpdate(producers, wake.value, to, false);
      BlockedUpdate(producers, wake.value, to, true);
    } else {
      forall p | 0 <= p < |producers| ensures !(producers[p].Blocked? && producers[p].signalled == false) {
        assert !BlockedOne(producers, p);
      }
      NoneBlocked(producers, false);
    }
  }

  lemma {:induction false} ProducerPushes(s: State, p: nat, task: Task, wake: Option<nat>)
    requires Inv(s) && p < |s.producers| && |s.queue| < s.max && !s.shutting && WakesWorker(s.workers, wake)
    ensures Inv(s.(producers := s.producers[p := Idle], queue := s.queue + [task],
                   accepted := s.accepted + [task], workers := SignalWorker(s.workers, wake)))
  {
    BlockedUpdate(s.producers, p, Idle, true);
    BlockedUpdate(s.producers, p, Idle, false);
    SignalCounts(s.workers, wake);
    assert s.taken + s.queue + [task] == s.taken + (s.queue + [task]);
  }

  lemma {:induction false} ProducerStep(s: State, p: nat, task: Task, wake: Option<nat>)
    requires Inv(s) && p < |s.producers| && WakesWorker(s.workers, wake)
    ensures Inv(ProducerSection(s, p, task, wake))
  {
    match ProducerSees(|s.queue|, s.max, s.shutting) {
      case Wait => ProducerWaits(s, p, task);
      case Refuse => ProducerRefused(s, p);
      case Push => ProducerPushes(s, p, task, wake);
    }
  }

  lemma {:induction false} WorkerMoves(s: State, w: nat, to: WorkerPc)
    requires w < |s.workers|
    ensures var r := s.workers[w := to];
            && (forall pc :: WorkersAt(r, pc) + (if s.workers[w] == pc then 1 else 0)
                          == WorkersAt(s.workers, pc) + (if to == pc then 1 else 0))
            && InHand(r) + Held(s.workers[w]) == InHand(s.workers) + Held(to)
            && (Held(s.workers[w]) == multiset{} ==> InHand(r) == InHand(s.workers) + Held(to))
            && (Held(to) == multiset{} ==> InHand(s.workers) == InHand(r) + Held(s.workers[w]))
            && (Held(s.workers[w]) == Held(to) == multiset{} ==> InHand(r) == InHand(s.workers))
  {
    forall pc ensures WorkersAt(s.workers[w := to], pc) + (if s.workers[w] == pc then 1 else 0)
                   == WorkersAt(s.workers, pc) + (if to == pc then 1 else 0)
    {
      WorkersAtUpdate(s.workers, w, to, pc);
    }
    InHandUpdate(s.workers, w, to);
  }

  lemma {:induction false} WorkerSleeps(s: State, w: nat)
    requires Inv(s) && w < |s.workers| && Held(s.workers[w]) == multiset{} && s.queue == [] && !s.shutting
    ensures Inv(s.(workers := s.workers[w := Asleep(false)]))
  {
    WorkerMoves(s, w, Asleep(false));
  }

  lemma {:induction false} WorkerLeaves(s: State, w: nat)
    requires Inv(s) && w < |s.workers| && Held(s.workers[w]) == multiset{} && s.queue == [] && s.shutting
    ensures Inv(s.(workers := s.workers[w := Exited]))
  {
    WorkerMoves(s, w, Exited);
  }

  /** The head of the queue moves to the tasks in hand. */
  lemma {:induction false} LedgerTakes(taken: seq<Task>, queue: seq<Task>, handled: multiset<Task>,
                                       a: multiset<Task>, b: multiset<Task>)
    requires queue != [] && multiset(taken) == handled + a && b == a + multiset{queue[0]}
    ensures taken + queue == taken + [queue[0]] + queue[1..]
    ensures multiset(taken + [queue[0]]) == handled + b
  {
    assert queue == [queue[0]] + queue[1..];
    assert multiset(taken + [queue[0]]) == multiset(taken) + multiset{queue[0]};
  }

  /** A worker that takes a task leaves the sleepers, or was not among them. */
  lemma {:induction false} TakerCounts(workers: seq<WorkerPc>, w: nat, task: Task)
    requires w < |workers| && Held(workers[w]) == multiset{}
    ensures var r := workers[w := Handling(task)];
            && WorkersAt(r, Asleep(false)) <= WorkersAt(workers, Asleep(false))
            && WorkersAt(r, Asleep(true)) + 1 >= WorkersAt(workers, Asleep(true))
            && WorkersAt(r, Exited) <= WorkersAt(workers, Exited)
            && InHand(r) == InHand(workers) + multiset{task}
  {
    WorkersAtUpdate(workers, w, Handling(task), Asleep(false));
    WorkersAtUpdate(workers, w, Handling(task), Asleep(true));
    WorkersAtUpdate(workers, w, Handling(task), Exited);
    InHandUpdate(workers, w, Handling(task));
  }

  lemma {:induction false} WorkerTakes(s: State, w: nat, wake: Option<nat>)
    requires Inv(s) && w < |s.workers| && Held(s.workers[w]) == multiset{} && s.queue != []
    requires WakesProducer(s.producers, wake)
    ensures Inv(s.(workers := s.workers[w := Handling(s.queue[0])], queue := s.queue[1..],
                   taken := s.taken + [s.queue[0]], producers := SignalProducer(s.producers, wake)))
  {
    var r := s.workers[w := Handling(s.queue[0])];
    TakerCounts(s.workers, w, s.queue[0]);
    SignalProducerCounts(s.producers, wake);
    LedgerTakes(s.taken, s.queue, s.handled, InHand(s.workers), InHand(r));
  }

  lemma {:induction false} WorkerStep(s: State, w: nat, wake: Option<nat>)
    requires Inv(s) && w < |s.workers| && Held(s.workers[w]) == multiset{} && WakesProducer(s.producers, wake)
    ensures Inv(WorkerSection(s, w, wake))
  {
    match WorkerSees(|s.queue|, s.shutting) {
      case Sleep => WorkerSleeps(s, w);
      case Leave => WorkerLeaves(s, w);
      case Take => WorkerTakes(s, w, wake);
    }
  }

  lemma {:induction false} LedgerDone(taken: multiset<Task>, handled: multiset<Task>,
                                      a: multiset<Task>, b: multiset<Task>, x: multiset<Task>)
    requires taken == handled + a && a == b + x
    ensures taken == handled + x + b
  {
  }

  lemma {:induction false} DoneStep(s: State, w: nat)
    requires Inv(s) && w < |s.workers| && s.workers[w].Handling?
    ensures Inv(HandledBy(s, w))
  {
    WorkerMoves(s, w, Top);
    LedgerDone(multiset(s.taken), s.handled, InHand(s.workers), InHand(s.workers[w := Top]),
               multiset{s.workers[w].task});
  }

  lemma {:induction false} BroadcastCounts(workers: seq<WorkerPc>)
    ensures WorkersAt(WakeAllWorkers(workers), Asleep(false)) == 0
    ensures WorkersAt(WakeAllWorkers(workers), Exited) == WorkersAt(workers, Exited)
    ensures InHand(WakeAllWorkers(workers)) == InHand(workers)
  {
    NoneAt(WakeAllWorkers(workers), Asleep(false));
    InHandSame(WakeAllWorkers(workers), workers);
    ExitedSame(WakeAllWorkers(workers), workers);
  }

  lemma {:induction false} ExitedSame(a: seq<WorkerPc>, b: seq<WorkerPc>)
    requires |a| == |b| && forall i :: 0 <= i < |a| ==> (a[i] == Exited <==> b[i] == Exited)
    ensures WorkersAt(a, Exited) == WorkersAt(b, Exited)
  {
    if a != [] {
      ExitedSame(a[..|a| - 1], b[..|b| - 1]);
    }
  }

  lemma {:induction false} ShutdownStep(s: State)
    requires Inv(s)
    ensures Inv(ShutDown(s))
  {
    BroadcastCounts(s.workers);
    NoneBlocked(WakeAllProducers(s.producers), false);
  }

  lemma {:induction false} InitHolds(max: nat, workers: nat, producers: nat)
    ensures Inv(Init(max, workers, producers))
  {
    var s := Init(max, workers, producers);
    NoneAt(s.workers, Asleep(false));
    NoneAt(s.workers, Exited);
    NoneBlocked(s.producers, false);
    NothingInHand(s.workers);
  }

  lemma {:induction false} NothingInHand(workers: seq<WorkerPc>)
    requires forall w :: 0 <= w < |workers| ==> !workers[w].Handling?
    ensures InHand(workers) == multiset{}
  {
    if workers != [] {
      NothingInHand(workers[..|workers| - 1]);
    }
  }

  lemma {:induction false} StepHolds(s: State, step: Step)
    requires Inv(s) && Enabled(s, step)
    ensures Inv(Apply(s, step))
  {
    match step {
      case Enqueue(p, task, wake) => ProducerStep(s, p, task, wake);
      case ProducerWakes(p, wake) => ProducerStep(s, p, s.producers[p].task, wake);
      case WorkerEnters(w, wake) => WorkerStep(s, w, wake);
      case WorkerDone(w) => DoneStep(s, w);
      case Shutdown => ShutdownStep(s);
    }
  }

  /** Every reachable state satisfies the invariant. */
  lemma {:induction false} Reachable(c: Config, steps: seq<Step>)
    requires IsRun(c, steps)
    ensures Inv(After(c, steps)) && |After(c, steps).workers| == c.workers
  {
    if steps == [] {
      InitHolds(c.max, c.workers, c.producers);
    } else {
      Reachable(c, steps[..|steps| - 1]);
      StepHolds(After(c, steps[..|steps| - 1]), steps[|steps| - 1]);
    }
  }

  // ----- the theorems

  /** In every run the queue keeps its bound, and tasks leave it in the order they entered. */
  lemma {:induction false} BoundedFifo(c: Config, steps: seq<Step>)
    requires IsRun(c, steps)
    ensures var s := After(c, steps);
            |s.queue| <= s.max && s.taken <= s.accepted && s.queue == s.accepted[|s.taken|..]
  {
    Reachable(c, steps);
  }

  /** Never is there work with every live worker asleep and none of them signalled, nor a free
      slot with every producer blocked and none of them signalled. */
  lemma {:induction false} NobodyIsForgotten(c: Config, steps: seq<Step>)
    requires IsRun(c, steps)
    ensures var s := After(c, steps);
            && (s.queue != [] && c.workers > 0 ==>
                  exists w :: 0 <= w < |s.workers| && s.workers[w] != Asleep(false) && s.workers[w] != Exited)
            && (|s.queue| < s.max && |s.producers| > 0 ==>
                  exists p: nat :: p < |s.producers| && !BlockedOne(s.producers, p))
  {
    var s := After(c, steps);
    Reachable(c, steps);
    if s.queue != [] && c.workers > 0 {
      NoneAt(s.workers, Exited);
      NoneAt(s.workers, Asleep(false));
      if forall w :: 0 <= w < |s.workers| ==> s.workers[w] == Asleep(false) {
        assert s.workers[0] == Asleep(false);
        NoneAt(s.workers, Asleep(true));
      }
    }
    if |s.queue| < s.max && |s.producers| > 0 {
      NoneBlocked(s.producers, false);
      if forall p: nat :: p < |s.producers| ==> BlockedOne(s.producers, p) {
        assert BlockedOne(s.producers, 0);
        forall p | 0 <= p < |s.producers|
          ensures !(s.producers[p].Blocked? && s.producers[p].signalled == true)
        {
          assert BlockedOne(s.producers, p);
        }
        NoneBlocked(s.producers, true);
      }
    }
  }

  /** Once every worker has exited, each accepted task has been handled exactly as often as it
      was accepted, and none is left. */
  lemma {:induction false} ExactlyOnce(c: Config, steps: seq<Step>)
    requires IsRun(c, steps) && c.workers > 0
    requires forall w :: 0 <= w < |After(c, steps).workers| ==> After(c, steps).workers[w] == Exited
    ensures var s := After(c, steps);
            s.shutting && s.queue == [] && s.taken == s.accepted && s.handled == multiset(s.accepted)
  {
    var s := After(c, steps);
    Reachable(c, steps);
    NoneAt(s.workers, Exited);
    assert s.workers[0] == Exited;
    NothingInHand(s.workers);
    assert s.taken + s.queue == s.taken;
  }

  /** Once the queue is shutting down, no thread is left waiting without having been signalled, and none
      goes to sleep any more: workers take or leave, producers are refused. */
  lemma {:induction false} NobodyWaitsAfterShutdown(c: Config, steps: seq<Step>, i: nat)
    requires IsRun(c, steps) && After(c, steps).shutting
    ensures var s := After(c, steps);
      && (i < |s.workers| ==> s.workers[i] != Asleep(false))
      && (i < |s.producers| && s.producers[i].Blocked? ==> s.producers[i].signalled)
  {
    var s := After(c, steps);
    Reachable(c, steps);
    NoneAt(s.workers, Asleep(false));
    NoneBlocked(s.producers, false);
  }

  // ----- shutting down terminates

  function Rank(pc: WorkerPc): nat {
    if pc.Handling? then 2 else if pc == Exited then 0 else 1
  }

  function Ranks(workers: seq<WorkerPc>): nat {
    var n := |workers|;
    if n == 0 then 0 else Ranks(workers[..n - 1]) + Rank(workers[n - 1])
  }

  function Remaining(s: State): nat {
    Ranks(s.workers) + 2 * |s.queue|
  }

  lemma {:induction false} RanksUpdate(workers: seq<WorkerPc>, w: nat, to: WorkerPc)
    requires w < |workers|
    ensures Ranks(workers[w := to]) + Rank(workers[w]) == Ranks(workers) + Rank(to)
  {
    var n := |workers|;
    if w < n - 1 {
      RanksUpdate(workers[..n - 1], w, to);
      assert workers[w := to][..n - 1] == workers[..n - 1][w := to];
    } else {
      assert workers[w := to][..n - 1] == workers[..n - 1];
    }
  }

  /** After shutdown nothing is accepted any more, every worker step brings the end nearer, and
      until all workers have exited one of them can step. */
  lemma {:induction false} ShutdownDrains(s: State, step: Step)
    requires s.shutting && Enabled(s, step)
    ensures Apply(s, step).shutting && Apply(s, step).accepted == s.accepted
    ensures step.WorkerEnters? || step.WorkerDone? ==> Remaining(Apply(s, step)) < Remaining(s)
    ensures step.Enqueue? || step.ProducerWakes? ==> Remaining(Apply(s, step)) == Remaining(s)
  {
    match step {
      case WorkerEnters(w, _) =>
        RanksUpdate(s.workers, w, Exited);
        if s.queue != [] {
          RanksUpdate(s.workers, w, Handling(s.queue[0]));
        }
      case WorkerDone(w) => RanksUpdate(s.workers, w, Top);
      case _ =>
    }
  }

  lemma {:induction false} SomeWorkerCanStep(s: State, w: nat) returns (step: Step)
    requires w < |s.workers| && s.workers[w] != Exited
    ensures (step.WorkerEnters? || step.WorkerDone?) && Enabled(s, step)
  {
    if s.workers[w].Handling? {
      step := WorkerDone(w);
    } else if exists p: nat :: p < |s.producers| && BlockedOne(s.producers, p) {
      var p: nat :| p < |s.producers| && BlockedOne(s.producers, p);
      step := WorkerEnters(w, Some(p));
    } else {
      step := WorkerEnters(w, None);
    }
  }
}
