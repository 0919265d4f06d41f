/** The linked list behind the scan queue, and the two critical sections as they change it. */
module TaskQueue {
  import opened Options
  import opened ScanQueue

  class Node {
    var task: Task
    var next: Node?

    constructor (task: Task)
      ensures this.task == task && next == null
    {
      this.task := task;
      next := null;
    }
  }

  /** What the list stands for: the bound, the tasks in order, the flag. */
  datatype View = View(max: nat, tasks: seq<Task>, shutting: bool)

  /** A producer's pass and a worker's pass on that. */
  function Produced(v: View, task: Task): View {
    if ProducerSees(|v.tasks|, v.max, v.shutting) == Push then v.(tasks := v.tasks + [task]) else v
  }

  function Consumed(v: View): View {
    if WorkerSees(|v.tasks|, v.shutting) == Take && v.tasks != [] then v.(tasks := v.tasks[1..]) else v
  }

  function ViewOf(s: State): View {
    View(s.max, s.queue, s.shutting)
  }

  /** The producer's pass is the producer's section of the queue protocol: same queue, same outcome. */
  lemma {:induction false} ProducerPassIsSection(s: State, p: nat, task: Task, wake: Option<nat>)
    requires p < |s.producers| && WakesWorker(s.workers, wake)
    ensures var t, move := ProducerSection(s, p, task, wake), ProducerSees(|s.queue|, s.max, s.shutting);
      && ViewOf(t) == Produced(ViewOf(s), task)
      && t.accepted == (if move == Push then s.accepted + [task] else s.accepted)
      && t.producers[p] == (if move == Wait then Blocked(task, false) else Idle)
  {
  }

  /** And likewise the worker's. */
  lemma {:induction false} WorkerPassIsSection(s: State, w: nat, wake: Option<nat>)
    requires w < |s.workers| && WakesProducer(s.producers, wake)
    ensures var t, move := WorkerSection(s, w, wake), WorkerSees(|s.queue|, s.shutting);
      && ViewOf(t) == Consumed(ViewOf(s))
      && s.queue == (if move == Take then [t.taken[|s.taken|]] else []) + t.queue
      && t.workers[w] == (match move case Sleep => Asleep(false) case Leave => Exited case Take => Handling(s.queue[0]))
  {
  }

  /** `spine` are the list's nodes from head to tail, `contents` the tasks they carry. */
  class Queue {
    const max: nat
    var head: Node?
    var tail: Node?
    var len: nat
    var shutting: bool
    ghost var spine: seq<Node>
    ghost var contents: seq<Task>

    ghost predicate Valid()
      reads this, spine
    {
      && len == |spine| == |contents|
      && (head == if |spine| == 0 then null else spine[0])
      && (tail == if |spine| == 0 then null else spine[|spine| - 1])
      && (forall i, j :: 0 <= i < j < |spine| ==> spine[i] != spine[j])
      && (forall i :: 0 <= i < |spine| ==> spine[i].task == contents[i])
      && (forall i :: 0 <= i < |spine| - 1 ==> spine[i].next == spine[i + 1])
      && (spine != [] ==> spine[|spine| - 1].next == null)
    }

    ghost function Value(): View
      reads this
    {
      View(max, contents, shutting)
    }

    constructor (max: nat)
      ensures this.max == max && Valid() && contents == [] && !shutting && spine == []
    {
      this.max := max;
      head, tail, len, shutting, spine, contents := null, null, 0, false, [], [];
    }

    /** One pass of a producer through its critical section: wait, refuse, or append. */
    method ProducerPass(task: Task) returns (move: ProducerMove)
      requires Valid()
      modifies this`head, this`tail, this`len, this`spine, this`contents, spine
      ensures Valid() && move == ProducerSees(|old(contents)|, max, shutting)
      ensures contents == if move == Push then old(contents) + [task] else old(contents)
      ensures Value() == Produced(old(Value()), task)
      ensures forall n :: n in spine ==> n in old(spine) || fresh(n)
    {
      if len >= max && !shutting {
        return Wait;
      }
      if shutting {
        return Refuse;
      }
      var node := new Node(task);
      if tail != null {
        tail.next := node;
      } else {
        head := node;
      }
      tail := node;
      len := len + 1;
      spine := spine + [node];
      contents := contents + [task];
      return Push;
    }

    /** One pass of a worker: sleep, leave, or unlink the first task. */
    method WorkerPass() returns (move: WorkerMove, task: Task)
      requires Valid()
      modifies this`head, this`tail, this`len, this`spine, this`contents
      ensures Valid() && move == WorkerSees(|old(contents)|, shutting)
      ensures if move == Take then old(contents) == [task] + contents else contents == old(contents)
      ensures Value() == Consumed(old(Value()))
      ensures forall n :: n in spine ==> n in old(spine)
    {
      if head == null && !shutting {
        return Sleep, 0;
      }
      if head == null && shutting {
        return Leave, 0;
      }
      task := head.task;
      head := head.next;
      if head == null {
        tail := null;
      }
      len := len - 1;
      spine := spine[1..];
      contents := contents[1..];
      move := Take;
    }

    method Shutdown()
      requires Valid()
      modifies this`shutting
      ensures Valid() && shutting && contents == old(contents)
    {
      shutting := true;
    }
  }
}
