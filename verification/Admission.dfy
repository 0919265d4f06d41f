/** The cap on work in flight: one shared counter, a smaller cap for events that are not execs,
    and back-off after overshooting. One step is one atomic operation. */
module Admission {

  /** A handler between events; one that has overshot and must step back; one whose event was
      admitted and not yet released. */
  datatype Pc = Idle | Backing | Holding(exec: bool)

  datatype State = State(counter: int, threads: seq<Pc>)

  datatype Limits = Limits(max: nat, reserved: nat)

  datatype Step = Try(t: nat, exec: bool) | BackOff(t: nat) | Release(t: nat)

  predicate Sound(l: Limits) {
    l.reserved <= l.max
  }

  function Cap(l: Limits, exec: bool): nat
    requires Sound(l)
  {
    if exec then l.max else l.max - l.reserved
  }

  predicate Enabled(s: State, step: Step) {
    step.t < |s.threads| &&
    match step
    case Try(t, _) => s.threads[t] == Idle
    case BackOff(t) => s.threads[t] == Backing
    case Release(t) => s.threads[t].Holding?
  }

  /** The increment answers with the new value; the decrement after a refusal is a step of its own. */
  function Apply(l: Limits, s: State, step: Step): State
    requires Sound(l) && Enabled(s, step)
  {
    match step
    case Try(t, exec) =>
      State(s.counter + 1, s.threads[t := if s.counter + 1 > Cap(l, exec) then Backing else Holding(exec)])
    case BackOff(t) => State(s.counter - 1, s.threads[t := Idle])
    case Release(t) => State(s.counter - 1, s.threads[t := Idle])
  }

  function Init(n: nat): State {
    State(0, seq(n, _ => Idle))
  }

  predicate IsRun(l: Limits, n: nat, steps: seq<Step>)
    requires Sound(l)
    decreases |steps|, 0
  {
    steps == [] || (IsRun(l, n, steps[..|steps| - 1]) && Enabled(After(l, n, steps[..|steps| - 1]), steps[|steps| - 1]))
  }

  function After(l: Limits, n: nat, steps: seq<Step>): State
    requires Sound(l) && IsRun(l, n, steps)
    decreases |steps|, 1
  {
    if steps == [] then Init(n) else Apply(l, After(l, n, steps[..|steps| - 1]), steps[|steps| - 1])
  }

  // ----- counting

  function One(b: bool): nat {
    if b then 1 else 0
  }

  function Held(s: seq<Pc>): nat {
    if s == [] then 0 else Held(s[..|s| - 1]) + One(s[|s| - 1].Holding?)
  }

  function HeldByOthers(s: seq<Pc>): nat {
    if s == [] then 0 else HeldByOthers(s[..|s| - 1]) + One(s[|s| - 1] == Holding(false))
  }

  function BackingOff(s: seq<Pc>): nat {
    if s == [] then 0 else BackingOff(s[..|s| - 1]) + One(s[|s| - 1] == Backing)
  }

  lemma {:induction false} Recount(s: seq<Pc>, t: nat, x: Pc)
    requires t < |s|
    ensures Held(s[t := x]) + One(s[t].Holding?) == Held(s) + One(x.Holding?)
    ensures HeldByOthers(s[t := x]) + One(s[t] == Holding(false)) == HeldByOthers(s) + One(x == Holding(false))
    ensures BackingOff(s[t := x]) + One(s[t] == Backing) == BackingOff(s) + One(x == Backing)
  {
    var n := |s| - 1;
    var p := s[..n];
    if t < n {
      Recount(p, t, x);
      assert s[t := x][..n] == p[t := x];
    } else {
      assert s[t := x][..n] == p;
    }
  }

  lemma {:induction false} NothingHeld(n: nat)
    ensures var s := Init(n).threads; Held(s) == HeldByOthers(s) == BackingOff(s) == 0
  {
    if n > 0 {
      NothingHeld(n - 1);
      assert Init(n).threads[..n - 1] == Init(n - 1).threads;
    }
  }

  lemma {:induction false} OthersAreHeld(s: seq<Pc>)
    ensures HeldByOthers(s) <= Held(s)
  {
    if s != [] {
      OthersAreHeld(s[..|s| - 1]);
    }
  }

  ghost predicate Inv(l: Limits, s: State)
    requires Sound(l)
  {
    && s.counter == Held(s.threads) + BackingOff(s.threads)
    && Held(s.threads) <= l.max && HeldByOthers(s.threads) <= l.max - l.reserved
  }

  lemma {:induction false} StepHolds(l: Limits, s: State, step: Step)
    requires Sound(l) && Inv(l, s) && Enabled(s, step)
    ensures Inv(l, Apply(l, s, step)) && |Apply(l, s, step).threads| == |s.threads|
  {
    Recount(s.threads, step.t, Apply(l, s, step).threads[step.t]);
    OthersAreHeld(s.threads);
  }

  lemma {:induction false} Reachable(l: Limits, n: nat, steps: seq<Step>)
    requires Sound(l) && IsRun(l, n, steps)
    ensures Inv(l, After(l, n, steps)) && |After(l, n, steps).threads| == n
  {
    if steps == [] {
      NothingHeld(n);
    } else {
      Reachable(l, n, steps[..|steps| - 1]);
      StepHolds(l, After(l, n, steps[..|steps| - 1]), steps[|steps| - 1]);
    }
  }

  // ----- the theorems

  /** In every interleaving: never more than the cap in flight, never more than the smaller cap
      of events that are not execs, and a counter that is exact once nobody is backing off. */
  lemma {:induction false} NeverOverCap(l: Limits, n: nat, steps: seq<Step>)
    requires Sound(l) && IsRun(l, n, steps)
    ensures var s := After(l, n, steps);
      && Held(s.threads) <= l.max && HeldByOthers(s.threads) <= l.max - l.reserved
      && s.counter == Held(s.threads) + BackingOff(s.threads)
  {
    Reachable(l, n, steps);
  }

  /** When an exec is admitted: exactly when what is held and what is backing off leave a slot. */
  lemma {:induction false} ExecAdmitted(l: Limits, n: nat, steps: seq<Step>, t: nat)
    requires Sound(l) && IsRun(l, n, steps) && Enabled(After(l, n, steps), Try(t, true))
    ensures var s := After(l, n, steps);
      && (Apply(l, s, Try(t, true)).threads[t] == Holding(true) <==> Held(s.threads) + BackingOff(s.threads) < l.max)
      && (Held(s.threads) == HeldByOthers(s.threads) && BackingOff(s.threads) < l.reserved ==>
            Apply(l, s, Try(t, true)).threads[t] == Holding(true))
  {
    Reachable(l, n, steps);
  }

  /** And when another event is: the slots kept in reserve do not count. */
  lemma {:induction false} OtherAdmitted(l: Limits, n: nat, steps: seq<Step>, t: nat)
    requires Sound(l) && IsRun(l, n, steps) && Enabled(After(l, n, steps), Try(t, false))
    ensures var s := After(l, n, steps);
      Apply(l, s, Try(t, false)).threads[t] ==
        if Held(s.threads) + BackingOff(s.threads) < l.max - l.reserved then Holding(false) else Backing
  {
    Reachable(l, n, steps);
  }

  /** The first k threads in turn make an event that is not an exec. */
  function Storm(k: nat): (steps: seq<Step>)
    ensures |steps| == k
  {
    if k == 0 then [] else Storm(k - 1) + [Try(k - 1, false)]
  }

  /** k threads have tried: the first of them hold slots, the later ones are about to step back. */
  ghost predicate Flooded(l: Limits, s: State, n: nat, k: nat)
    requires Sound(l)
  {
    && s.counter == k && |s.threads| == n && k <= n
    && (forall i :: k <= i < n ==> s.threads[i] == Idle)
    && (forall i :: 0 <= i < k ==> s.threads[i] == if i < l.max - l.reserved then Holding(false) else Backing)
  }

  lemma {:induction false} FloodStep(l: Limits, s: State, n: nat, k: nat)
    requires Sound(l) && k < n && Flooded(l, s, n, k)
    ensures Enabled(s, Try(k, false)) && Flooded(l, Apply(l, s, Try(k, false)), n, k + 1)
  {
  }

  lemma {:induction false} StormFills(l: Limits, n: nat, k: nat)
    requires Sound(l) && k <= n
    ensures IsRun(l, n, Storm(k)) && Flooded(l, After(l, n, Storm(k)), n, k)
  {
    if k > 0 {
      var before, last := Storm(k - 1), Try(k - 1, false);
      StormFills(l, n, k - 1);
      FloodStep(l, After(l, n, before), n, k - 1);
      assert Storm(k)[..k - 1] == before && Storm(k)[k - 1] == last;
    }
  }

  lemma {:induction false} HeldAre(s: seq<Pc>, h: nat)
    requires h <= |s| && forall i :: 0 <= i < |s| ==> (s[i].Holding? <==> i < h)
    ensures Held(s) == h
  {
    if s != [] {
      var p := s[..|s| - 1];
      HeldAre(p, if h == |s| then h - 1 else h);
    }
  }

  /** The reserve is not always free for execs: with as many refused events about to step back
      as slots are reserved, an exec is refused although not one reserved slot is held. */
  lemma {:induction false} ReserveDenied(l: Limits, n: nat)
    requires Sound(l) && 0 < l.reserved && l.max < n
    ensures IsRun(l, n, Storm(l.max))
    ensures var s := After(l, n, Storm(l.max));
      && Enabled(s, Try(l.max, true))
      && Held(s.threads) == l.max - l.reserved && Apply(l, s, Try(l.max, true)).threads[l.max] == Backing
  {
    StormFills(l, n, l.max);
    HeldAre(After(l, n, Storm(l.max)).threads, l.max - l.reserved);
  }
}
