/** The distinct-entry detector: a fixed ring of stamped hashes that answers how many distinct
    hashes were noted in the trailing window. */
module SlidingWindow {
  import opened Options
  import Seqs

  /** One noted event. Time is in ticks; the window is the largest tick distance that the
      millisecond conversion still maps to at most the configured width. */
  datatype Note = Note(hash: nat, time: nat)

  predicate Recent(e: Note, now: nat, w: nat) {
    now - e.time <= w
  }

  function CountRecent(log: seq<Note>, now: nat, w: nat): (n: nat)
    ensures n <= |log|
  {
    var k := |log|;
    if k == 0 then 0 else CountRecent(log[..k - 1], now, w) + (if Recent(log[k - 1], now, w) then 1 else 0)
  }

  predicate Seen(log: seq<Note>, hash: nat, now: nat, w: nat) {
    exists i :: 0 <= i < |log| && log[i].hash == hash && Recent(log[i], now, w)
  }

  /** The newest cap entries. */
  function Visible(log: seq<Note>, cap: nat): (v: seq<Note>)
    ensures |v| <= cap && |v| <= |log|
  {
    if |log| <= cap then log else log[|log| - cap..]
  }

  // ----- runs

  /** Entries accepted by a ring of cap slots over a run of events. */
  function RingLog(events: seq<Note>, cap: nat, w: nat): seq<Note> {
    var n := |events|;
    if n == 0 then []
    else
      var log := RingLog(events[..n - 1], cap, w);
      if Seen(Visible(log, cap), events[n - 1].hash, events[n - 1].time, w) then log else log + [events[n - 1]]
  }

  /** What the ring answers to the last event of a run. */
  function RingReturn(events: seq<Note>, cap: nat, w: nat): nat
    requires events != []
  {
    var n := |events|;
    var v := Visible(RingLog(events[..n - 1], cap, w), cap);
    if Seen(v, events[n - 1].hash, events[n - 1].time, w) then 0 else CountRecent(v, events[n - 1].time, w) + 1
  }

  /** The same with an unbounded log of accepted events. */
  function FullLog(events: seq<Note>, w: nat): seq<Note> {
    var n := |events|;
    if n == 0 then []
    else
      var log := FullLog(events[..n - 1], w);
      if Seen(log, events[n - 1].hash, events[n - 1].time, w) then log else log + [events[n - 1]]
  }

  function FullReturn(events: seq<Note>, w: nat): nat
    requires events != []
  {
    var n := |events|;
    var log := FullLog(events[..n - 1], w);
    if Seen(log, events[n - 1].hash, events[n - 1].time, w) then 0 else CountRecent(log, events[n - 1].time, w) + 1
  }

  predicate NonDecreasing(s: seq<Note>) {
    forall i, j :: 0 <= i < j < |s| ==> s[i].time <= s[j].time
  }

  // ----- counting facts

  lemma {:induction false} CountConcat(a: seq<Note>, b: seq<Note>, now: nat, w: nat)
    ensures CountRecent(a + b, now, w) == CountRecent(a, now, w) + CountRecent(b, now, w)
  {
    if b == [] {
      assert a + b == a;
    } else {
      var k := |b|;
      assert (a + b)[..|a + b| - 1] == a + b[..k - 1];
      CountConcat(a, b[..k - 1], now, w);
    }
  }

  lemma {:induction false} CountAll(log: seq<Note>, now: nat, w: nat)
    requires forall i :: 0 <= i < |log| ==> Recent(log[i], now, w)
    ensures CountRecent(log, now, w) == |log|
  {
    if log != [] {
      CountAll(log[..|log| - 1], now, w);
    }
  }

  lemma {:induction false} CountNone(log: seq<Note>, now: nat, w: nat)
    requires forall i :: 0 <= i < |log| ==> !Recent(log[i], now, w)
    ensures CountRecent(log, now, w) == 0
  {
    if log != [] {
      CountNone(log[..|log| - 1], now, w);
    }
  }

  lemma {:induction false} CountAges(log: seq<Note>, now: nat, later: nat, w: nat)
    requires now <= later
    ensures CountRecent(log, later, w) <= CountRecent(log, now, w)
  {
    if log != [] {
      CountAges(log[..|log| - 1], now, later, w);
    }
  }

  // ----- accepted logs

  /** Every accepted entry is one of the events. */
  lemma {:induction false} NotedAt(events: seq<Note>, cap: nat, w: nat, k: nat) returns (j: nat)
    requires k < |RingLog(events, cap, w)|
    ensures j < |events| && events[j] == RingLog(events, cap, w)[k]
  {
    var n := |events|;
    if k < |RingLog(events[..n - 1], cap, w)| {
      j := NotedAt(events[..n - 1], cap, w, k);
    } else {
      j := n - 1;
    }
  }

  lemma {:induction false} RingLogOrdered(events: seq<Note>, cap: nat, w: nat)
    requires NonDecreasing(events)
    ensures NonDecreasing(RingLog(events, cap, w))
  {
    var n := |events|;
    if n > 0 {
      var p := events[..n - 1];
      RingLogOrdered(p, cap, w);
      forall i | 0 <= i < |RingLog(p, cap, w)| ensures RingLog(p, cap, w)[i].time <= events[n - 1].time {
        var j := NotedAt(p, cap, w, i);
      }
    }
  }

  lemma {:induction false} VisibleIs(log: seq<Note>, cap: nat, x: nat)
    requires x < |Visible(log, cap)|
    ensures Visible(log, cap)[x] == log[|log| - |Visible(log, cap)| + x]
  {
  }

  /** What the ring can see was noted earlier in the run. */
  lemma {:induction false} VisibleAt(events: seq<Note>, cap: nat, w: nat, x: nat) returns (j: nat)
    requires x < |Visible(RingLog(events, cap, w), cap)|
    ensures j < |events| && events[j] == Visible(RingLog(events, cap, w), cap)[x]
  {
    var log := RingLog(events, cap, w);
    VisibleIs(log, cap, x);
    j := NotedAt(events, cap, w, |log| - |Visible(log, cap)| + x);
  }

  // ----- the ring refines the unbounded log

  /** While at most cap entries are recent, none but the newest cap can be. */
  lemma {:induction false} OlderAreStale(log: seq<Note>, cap: nat, now: nat, w: nat, i: nat)
    requires NonDecreasing(log) && CountRecent(log, now, w) <= cap && i < |log| - cap
    ensures !Recent(log[i], now, w)
  {
    if Recent(log[i], now, w) {
      var newer := log[i..];
      forall k | 0 <= k < |newer| ensures Recent(newer[k], now, w) {
        assert newer[k] == log[i + k];
        assert log[i].time <= log[i + k].time;
      }
      assert log == log[..i] + newer;
      CountConcat(log[..i], newer, now, w);
      CountAll(newer, now, w);
    }
  }

  lemma {:induction false} RecentCountVisible(log: seq<Note>, cap: nat, now: nat, w: nat)
    requires NonDecreasing(log) && CountRecent(log, now, w) <= cap
    ensures CountRecent(Visible(log, cap), now, w) == CountRecent(log, now, w)
  {
    if |log| > cap {
      var a, v := log[..|log| - cap], log[|log| - cap..];
      assert log == a + v;
      CountConcat(a, v, now, w);
      forall i | 0 <= i < |a| ensures !Recent(a[i], now, w) {
        OlderAreStale(log, cap, now, w, i);
      }
      CountNone(a, now, w);
    }
  }

  lemma {:induction false} RecentSeenVisible(log: seq<Note>, cap: nat, now: nat, w: nat, h: nat)
    requires NonDecreasing(log) && CountRecent(log, now, w) <= cap
    ensures Seen(Visible(log, cap), h, now, w) <==> Seen(log, h, now, w)
  {
    if |log| > cap {
      var k, v := |log| - cap, Visible(log, cap);
      if Seen(log, h, now, w) {
        var i :| 0 <= i < |log| && log[i].hash == h && Recent(log[i], now, w);
        if i < k {
          OlderAreStale(log, cap, now, w, i);
        }
        assert v[i - k] == log[i];
      }
      if Seen(v, h, now, w) {
        var i :| 0 <= i < |v| && v[i].hash == h && Recent(v[i], now, w);
        assert log[k + i] == v[i];
      }
    }
  }

  /** Every return before the last event stayed within cap. */
  ghost predicate QuietBefore(events: seq<Note>, cap: nat, w: nat) {
    forall n :: 0 < n < |events| ==> FullReturn(events[..n], w) <= cap
  }

  lemma {:induction false} QuietThrough(events: seq<Note>, cap: nat, w: nat)
    requires events != [] && QuietBefore(events, cap, w)
    ensures var p := events[..|events| - 1];
      QuietBefore(p, cap, w) && forall m :: 0 < m <= |p| ==> FullReturn(p[..m], w) <= cap
  {
    var p := events[..|events| - 1];
    forall m | 0 < m <= |p| ensures FullReturn(p[..m], w) <= cap {
      assert p[..m] == events[..m];
    }
  }

  /** After a quiet run at most cap accepted entries are recent at any later time. */
  lemma {:induction false} FewRecent(events: seq<Note>, cap: nat, w: nat, now: nat)
    requires NonDecreasing(events) && forall n :: 0 < n <= |events| ==> FullReturn(events[..n], w) <= cap
    requires forall i :: 0 <= i < |events| ==> events[i].time <= now
    ensures CountRecent(FullLog(events, w), now, w) <= cap
  {
    var n := |events|;
    if n > 0 {
      var p, e := events[..n - 1], events[n - 1];
      var log := FullLog(p, w);
      if Seen(log, e.hash, e.time, w) {
        forall m | 0 < m <= |p| ensures FullReturn(p[..m], w) <= cap {
          assert p[..m] == events[..m];
        }
        FewRecent(p, cap, w, now);
      } else {
        assert events[..n] == events;
        assert FullReturn(events, w) <= cap;
        CountAges(log, e.time, now, w);
        CountConcat(log, [e], now, w);
      }
    }
  }

  /** What an unbounded log holds as recent after a quiet run is what a ring of cap slots sees. */
  lemma {:induction false} QuietLogFits(events: seq<Note>, cap: nat, w: nat, h: nat)
    requires NonDecreasing(events) && events != [] && QuietBefore(events, cap, w)
    requires RingLog(events[..|events| - 1], cap, w) == FullLog(events[..|events| - 1], w)
    ensures var log, now := FullLog(events[..|events| - 1], w), events[|events| - 1].time;
      && CountRecent(Visible(log, cap), now, w) == CountRecent(log, now, w)
      && (Seen(Visible(log, cap), h, now, w) <==> Seen(log, h, now, w))
  {
    var p, now := events[..|events| - 1], events[|events| - 1].time;
    QuietThrough(events, cap, w);
    FewRecent(p, cap, w, now);
    RingLogOrdered(p, cap, w);
    RecentCountVisible(FullLog(p, w), cap, now, w);
    RecentSeenVisible(FullLog(p, w), cap, now, w, h);
  }

  /** Up to and including the first return above cap, the ring answers exactly as an
      unbounded log of accepted events would, and has accepted exactly the same events. */
  lemma {:induction false} RingRefinesLog(events: seq<Note>, cap: nat, w: nat)
    requires NonDecreasing(events) && QuietBefore(events, cap, w)
    ensures RingLog(events, cap, w) == FullLog(events, w)
    ensures events != [] ==> RingReturn(events, cap, w) == FullReturn(events, w)
  {
    if events != [] {
      var p, e := events[..|events| - 1], events[|events| - 1];
      QuietThrough(events, cap, w);
      RingRefinesLog(p, cap, w);
      QuietLogFits(events, cap, w, e.hash);
    }
  }

  // ----- soundness of a positive answer

  /** Equal hashes close enough to be visible to one another lie further apart than the window. */
  ghost predicate Spaced(log: seq<Note>, cap: nat, w: nat) {
    forall i, j :: 0 <= i < j < |log| && j - i <= cap && log[i].hash == log[j].hash ==> log[j].time - log[i].time > w
  }

  lemma {:induction false} SpacedSnoc(log: seq<Note>, cap: nat, w: nat, e: Note)
    requires Spaced(log, cap, w)
    requires forall i :: 0 <= i < |log| && |log| - i <= cap && log[i].hash == e.hash ==> e.time - log[i].time > w
    ensures Spaced(log + [e], cap, w)
  {
  }

  /** An entry is accepted only when no visible one of its hash is recent. */
  lemma {:induction false} AcceptedIsSpaced(log: seq<Note>, cap: nat, w: nat, e: Note)
    requires Spaced(log, cap, w) && !Seen(Visible(log, cap), e.hash, e.time, w)
    ensures Spaced(log + [e], cap, w)
  {
    var v := Visible(log, cap);
    forall i | 0 <= i < |log| && |log| - i <= cap && log[i].hash == e.hash ensures e.time - log[i].time > w {
      assert v[i - (|log| - |v|)] == log[i];
    }
    SpacedSnoc(log, cap, w, e);
  }

  lemma {:induction false} RingLogSpaced(events: seq<Note>, cap: nat, w: nat)
    ensures Spaced(RingLog(events, cap, w), cap, w)
  {
    if events != [] {
      var p, e := events[..|events| - 1], events[|events| - 1];
      RingLogSpaced(p, cap, w);
      if !Seen(Visible(RingLog(p, cap, w), cap), e.hash, e.time, w) {
        AcceptedIsSpaced(RingLog(p, cap, w), cap, w, e);
      }
    }
  }

  /** The hashes of the recent entries. */
  function RecentHashes(log: seq<Note>, now: nat, w: nat): set<nat> {
    set i | 0 <= i < |log| && Recent(log[i], now, w) :: log[i].hash
  }

  lemma {:induction false} RecentHashesSnoc(p: seq<Note>, e: Note, now: nat, w: nat)
    ensures RecentHashes(p + [e], now, w)
         == RecentHashes(p, now, w) + (if Recent(e, now, w) then {e.hash} else {})
  {
    var v := p + [e];
    forall h | h in RecentHashes(p, now, w) ensures h in RecentHashes(v, now, w) {
      var i :| 0 <= i < |p| && Recent(p[i], now, w) && p[i].hash == h;
      assert v[i] == p[i];
    }
    assert v[|p|] == e;
  }

  ghost predicate NotLater(v: seq<Note>, now: nat) {
    forall i :: 0 <= i < |v| ==> v[i].time <= now
  }

  lemma {:induction false} NewestIsNew(v: seq<Note>, cap: nat, now: nat, w: nat)
    requires 0 < |v| <= cap && Spaced(v, cap, w) && NotLater(v, now)
    ensures v[|v| - 1].hash !in RecentHashes(v[..|v| - 1], now, w)
  {
    var p, e := v[..|v| - 1], v[|v| - 1];
    forall i | 0 <= i < |p| && p[i].hash == e.hash ensures !Recent(p[i], now, w) {
      assert p[i] == v[i];
    }
  }

  lemma {:induction false} RecentHashesCount(v: seq<Note>, cap: nat, now: nat, w: nat)
    requires |v| <= cap && Spaced(v, cap, w) && NotLater(v, now)
    ensures |RecentHashes(v, now, w)| == CountRecent(v, now, w)
  {
    var k := |v|;
    if k > 0 {
      var p, e := v[..k - 1], v[k - 1];
      RecentHashesCount(p, cap, now, w);
      assert v == p + [e];
      RecentHashesSnoc(p, e, now, w);
      if Recent(e, now, w) {
        NewestIsNew(v, cap, now, w);
      }
    }
  }

  /** Every hash noted in the window that ends with the last event. */
  function Touched(events: seq<Note>, w: nat): set<nat>
    requires events != []
  {
    RecentHashes(events, events[|events| - 1].time, w)
  }

  /** The hashes behind a positive answer: those on record as recent, and the new one. */
  function Counted(events: seq<Note>, cap: nat, w: nat): set<nat>
    requires events != []
  {
    var n := |events|;
    RecentHashes(Visible(RingLog(events[..n - 1], cap, w), cap), events[n - 1].time, w) + {events[n - 1].hash}
  }

  lemma {:induction false} VisibleSpaced(log: seq<Note>, cap: nat, w: nat)
    requires Spaced(log, cap, w)
    ensures Spaced(Visible(log, cap), cap, w)
  {
    var v := Visible(log, cap);
    var d := |log| - |v|;
    forall i, j | 0 <= i < j < |v| && j - i <= cap && v[i].hash == v[j].hash ensures v[j].time - v[i].time > w {
      assert v[i] == log[d + i] && v[j] == log[d + j];
    }
  }

  lemma {:induction false} CountedWereTouched(events: seq<Note>, cap: nat, w: nat)
    requires events != []
    ensures Counted(events, cap, w) <= Touched(events, w)
  {
    var n := |events|;
    var p, now := events[..n - 1], events[n - 1].time;
    var v := Visible(RingLog(p, cap, w), cap);
    assert Recent(events[n - 1], now, w);
    forall h | h in RecentHashes(v, now, w) ensures h in Touched(events, w) {
      var i :| 0 <= i < |v| && Recent(v[i], now, w) && v[i].hash == h;
      var j := VisibleAt(p, cap, w, i);
      assert events[j] == v[i];
    }
  }

  /** A positive answer n is always backed by n distinct hashes noted within the window. */
  lemma {:induction false} PositiveAnswer(events: seq<Note>, cap: nat, w: nat)
    requires NonDecreasing(events) && events != [] && RingReturn(events, cap, w) > 0
    ensures RingReturn(events, cap, w) == |Counted(events, cap, w)| <= |Touched(events, w)|
    ensures Counted(events, cap, w) <= Touched(events, w)
  {
    var n := |events|;
    var p, e := events[..n - 1], events[n - 1];
    var v := Visible(RingLog(p, cap, w), cap);
    RingLogSpaced(p, cap, w);
    VisibleSpaced(RingLog(p, cap, w), cap, w);
    VisibleNotLater(events, cap, w);
    RecentHashesCount(v, cap, e.time, w);
    assert e.hash !in RecentHashes(v, e.time, w);
    CountedWereTouched(events, cap, w);
    Seqs.SubsetSize(Counted(events, cap, w), Touched(events, w));
  }

  lemma {:induction false} VisibleNotLater(events: seq<Note>, cap: nat, w: nat)
    requires NonDecreasing(events) && events != []
    ensures NotLater(Visible(RingLog(events[..|events| - 1], cap, w), cap), events[|events| - 1].time)
  {
    var p := events[..|events| - 1];
    var v := Visible(RingLog(p, cap, w), cap);
    forall i | 0 <= i < |v| ensures v[i].time <= events[|events| - 1].time {
      var j := VisibleAt(p, cap, w, i);
    }
  }

  // ----- the answer from the history alone

  /** The stamp that the notes of `h` leave behind: a note starts a new stamp when there is none
      or the last one started is more than w old. Only the notes of `h` matter. */
  function LastKept(events: seq<Note>, h: nat, w: nat): Option<nat> {
    if events == [] then None
    else
      var e, before := events[|events| - 1], LastKept(events[..|events| - 1], h, w);
      if e.hash == h && !Current(before, e.time, w) then Some(e.time) else before
  }

  /** A stamp that is still within the window. */
  predicate Current(stamp: Option<nat>, now: nat, w: nat) {
    stamp.Some? && now - stamp.value <= w
  }

  /** Entry i of the log is the newest one of hash h. */
  ghost predicate NewestOf(log: seq<Note>, h: nat, stamp: Option<nat>) {
    if stamp.None? then forall i :: 0 <= i < |log| ==> log[i].hash != h
    else
      && (forall i :: 0 <= i < |log| && log[i].hash == h ==> log[i].time <= stamp.value)
      && exists i :: 0 <= i < |log| && log[i].hash == h && log[i].time == stamp.value
  }

  lemma {:induction false} NewestDecides(log: seq<Note>, h: nat, stamp: Option<nat>, now: nat, w: nat)
    requires NewestOf(log, h, stamp)
    ensures Seen(log, h, now, w) <==> Current(stamp, now, w)
  {
  }

  lemma {:induction false} NewestOfSnoc(log: seq<Note>, h: nat, stamp: Option<nat>, e: Note)
    requires NewestOf(log, h, stamp) && (stamp.Some? ==> stamp.value <= e.time)
    ensures NewestOf(log + [e], h, if e.hash == h then Some(e.time) else stamp)
  {
    var all := log + [e];
    assert all[|log|] == e;
    if e.hash != h && stamp.Some? {
      var i :| 0 <= i < |log| && log[i].hash == h && log[i].time == stamp.value;
      assert all[i].hash == h && all[i].time == stamp.value;
    }
  }

  lemma {:induction false} LastKeptBound(events: seq<Note>, h: nat, w: nat, now: nat)
    requires forall i :: 0 <= i < |events| ==> events[i].time <= now
    ensures LastKept(events, h, w).Some? ==> LastKept(events, h, w).value <= now
  {
    if events != [] {
      LastKeptBound(events[..|events| - 1], h, w, now);
    }
  }

  /** The stamp of the history is that of the newest accepted note of the hash. */
  lemma {:induction false} LastKeptIsNewest(events: seq<Note>, h: nat, w: nat)
    requires NonDecreasing(events)
    ensures NewestOf(FullLog(events, w), h, LastKept(events, h, w))
  {
    if events != [] {
      var p, e := events[..|events| - 1], events[|events| - 1];
      LastKeptIsNewest(p, h, w);
      LastKeptBound(p, h, w, e.time);
      NewestOfSnoc(FullLog(p, w), h, LastKept(p, h, w), e);
      if e.hash == h {
        NewestDecides(FullLog(p, w), h, LastKept(p, h, w), e.time, w);
      }
    }
  }

  /** The hashes touched in the window whose stamp is still within it. */
  function StillStamped(events: seq<Note>, w: nat): set<nat>
    requires events != []
  {
    set h | h in Touched(events, w) && Current(LastKept(events, h, w), events[|events| - 1].time, w)
  }

  lemma {:induction false} SeenIsRecentHash(v: seq<Note>, h: nat, now: nat, w: nat)
    ensures h in RecentHashes(v, now, w) <==> Seen(v, h, now, w)
  {
  }

  /** In a run that was quiet before, the ring holds a hash as recent exactly when its stamp is. */
  lemma {:induction false} OnRecord(events: seq<Note>, cap: nat, w: nat, h: nat)
    requires NonDecreasing(events) && events != [] && QuietBefore(events, cap, w)
    ensures var p, now := events[..|events| - 1], events[|events| - 1].time;
      h in RecentHashes(Visible(RingLog(p, cap, w), cap), now, w) <==> Current(LastKept(p, h, w), now, w)
  {
    var p, now := events[..|events| - 1], events[|events| - 1].time;
    QuietThrough(events, cap, w);
    RingRefinesLog(p, cap, w);
    QuietLogFits(events, cap, w, h);
    SeenIsRecentHash(Visible(FullLog(p, w), cap), h, now, w);
    LastKeptIsNewest(p, h, w);
    NewestDecides(FullLog(p, w), h, LastKept(p, h, w), now, w);
  }

  /** The answer, up to and including the first one above cap, from the notes alone: zero when
      the stamp of the noted hash is still current, and otherwise the number of hashes touched in
      the window whose stamp is. */
  lemma {:induction false} AnswerFromHistory(events: seq<Note>, cap: nat, w: nat)
    requires NonDecreasing(events) && events != [] && QuietBefore(events, cap, w)
    ensures var p, e := events[..|events| - 1], events[|events| - 1];
      RingReturn(events, cap, w) == if Current(LastKept(p, e.hash, w), e.time, w) then 0 else |StillStamped(events, w)|
  {
    var p, e := events[..|events| - 1], events[|events| - 1];
    OnRecord(events, cap, w, e.hash);
    SeenIsRecentHash(Visible(RingLog(p, cap, w), cap), e.hash, e.time, w);
    if RingReturn(events, cap, w) > 0 {
      PositiveAnswer(events, cap, w);
      forall h ensures h in Counted(events, cap, w) <==> h in StillStamped(events, w) {
        OnRecord(events, cap, w, h);
      }
      assert Counted(events, cap, w) == StillStamped(events, w);
    }
  }

  /** Exactly when a positive answer counts every hash touched in the window: the stamp of each of
      them is still within it, so none was touched there only as a repeat of a stamp since expired. */
  lemma {:induction false} CountsAllTouched(events: seq<Note>, cap: nat, w: nat)
    requires NonDecreasing(events) && events != [] && QuietBefore(events, cap, w)
    requires RingReturn(events, cap, w) > 0
    ensures RingReturn(events, cap, w) == |Touched(events, w)|
      <==> forall h :: h in Touched(events, w) ==> Current(LastKept(events, h, w), events[|events| - 1].time, w)
  {
    AnswerFromHistory(events, cap, w);
    Seqs.SubsetSize(StillStamped(events, w), Touched(events, w));
  }

  /** A repeat does not refresh its stamp: hash 1 is touched at the end of the window of its
      first note, and one tick later it no longer counts although it was just touched. */
  lemma {:induction false} RepeatIsNotRefreshed(events: seq<Note>)
    requires events == [Note(1, 0), Note(1, 2000), Note(2, 2001)]
    ensures RingReturn(events, 50, 2000) == 1 && Touched(events, 2000) == {1, 2}
  {
    assert events[..2] == [Note(1, 0), Note(1, 2000)];
    assert events[..2][..1] == [Note(1, 0)];
    assert events[..1][..0] == [];
    assert RingLog([], 50, 2000) == [];
    assert RingLog([Note(1, 0)], 50, 2000) == [Note(1, 0)] by {
      assert [Note(1, 0)][..0] == [];
    }
    var one := [Note(1, 0)];
    assert one[0].hash == 1 && Recent(one[0], 2000, 2000);
    assert RingLog(events[..2], 50, 2000) == one;
    assert !Seen(one, 2, 2001, 2000);
    assert CountRecent(one, 2001, 2000) == 0 by {
      assert one[..0] == [];
    }
    assert Recent(events[1], 2001, 2000) && Recent(events[2], 2001, 2000);
  }

  // ----- completeness on a burst

  /** The accepted entries before event i. */
  function LogAt(events: seq<Note>, cap: nat, w: nat, i: nat): seq<Note>
    requires i <= |events|
  {
    RingLog(events[..i], cap, w)
  }

  predicate AcceptedAt(events: seq<Note>, cap: nat, w: nat, i: nat)
    requires i < |events|
  {
    !Seen(Visible(LogAt(events, cap, w, i), cap), events[i].hash, events[i].time, w)
  }

  lemma {:induction false} LogAtStep(events: seq<Note>, cap: nat, w: nat, i: nat)
    requires i < |events|
    ensures LogAt(events, cap, w, i + 1)
         == LogAt(events, cap, w, i) + (if AcceptedAt(events, cap, w, i) then [events[i]] else [])
  {
    assert events[..i + 1][..i] == events[..i];
  }

  ghost predicate Extends(log: seq<Note>, base: seq<Note>, since: nat) {
    base <= log && forall k :: |base| <= k < |log| ==> log[k].time >= since
  }

  lemma {:induction false} ExtendsBy(log: seq<Note>, base: seq<Note>, since: nat, e: Note)
    requires Extends(log, base, since) && since <= e.time
    ensures Extends(log + [e], base, since)
  {
  }

  /** Successive logs that each append at most their own event. */
  ghost predicate AppendingLogs(logs: seq<seq<Note>>, events: seq<Note>) {
    && |logs| == |events| + 1
    && forall i :: 0 <= i < |events| ==> logs[i + 1] == logs[i] || logs[i + 1] == logs[i] + [events[i]]
  }

  lemma {:induction false} AppendingLogsGrow(logs: seq<seq<Note>>, events: seq<Note>, a: nat, b: nat)
    requires AppendingLogs(logs, events) && NonDecreasing(events) && a <= b <= |events| && a < |events|
    ensures Extends(logs[b], logs[a], events[a].time)
    decreases b - a
  {
    if a < b {
      AppendingLogsGrow(logs, events, a, b - 1);
      assert events[a].time <= events[b - 1].time;
      ExtendsBy(logs[b - 1], logs[a], events[a].time, events[b - 1]);
      assert logs[b - 1 + 1] == logs[b];
    }
  }

  function LogsOf(events: seq<Note>, cap: nat, w: nat): (logs: seq<seq<Note>>)
    ensures |logs| == |events| + 1 && forall i :: 0 <= i <= |events| ==> logs[i] == LogAt(events, cap, w, i)
  {
    seq(|events| + 1, i requires 0 <= i <= |events| => LogAt(events, cap, w, i))
  }

  lemma {:induction false} LogsAppend(events: seq<Note>, cap: nat, w: nat)
    ensures AppendingLogs(LogsOf(events, cap, w), events)
  {
    forall i | 0 <= i < |events|
      ensures LogAt(events, cap, w, i + 1) == LogAt(events, cap, w, i)
           || LogAt(events, cap, w, i + 1) == LogAt(events, cap, w, i) + [events[i]]
    {
      LogAtStep(events, cap, w, i);
    }
  }

  /** Entries are only ever appended, and those appended from event a on are no older than it. */
  lemma {:induction false} LogGrows(events: seq<Note>, cap: nat, w: nat, a: nat, b: nat)
    requires NonDecreasing(events) && a <= b <= |events| && a < |events|
    ensures Extends(LogAt(events, cap, w, b), LogAt(events, cap, w, a), events[a].time)
  {
    LogsAppend(events, cap, w);
    AppendingLogsGrow(LogsOf(events, cap, w), events, a, b);
  }

  ghost predicate Ascending(idx: seq<nat>, n: nat) {
    && (forall k, l :: 0 <= k < l < |idx| ==> idx[k] < idx[l])
    && (forall k :: 0 <= k < |idx| ==> idx[k] < n)
  }

  /** None of the hashes at idx was noted earlier in the run after time since. */
  ghost predicate FirstNotes(events: seq<Note>, idx: seq<nat>, w: nat, since: nat)
    requires Ascending(idx, |events|)
  {
    forall k :: 0 <= k < |idx| ==> FirstNote(events, idx[k], w, since)
  }

  ghost predicate FirstNote(events: seq<Note>, i: nat, w: nat, since: nat)
    requires i < |events|
  {
    forall j :: 0 <= j < i && events[j].hash == events[i].hash ==> events[j].time + w < since
  }

  /** A burst: the ascending positions idx, the last of them the last event of the run, lie
      within one window, and none of their hashes was noted before its position within the
      burst or within the window before the burst. So the hashes are pairwise distinct. */
  ghost predicate Burst(events: seq<Note>, w: nat, idx: seq<nat>) {
    && idx != [] && Ascending(idx, |events|)
    && idx[|idx| - 1] == |events| - 1
    && events[|events| - 1].time - events[idx[0]].time <= w
    && FirstNotes(events, idx, w, events[idx[0]].time)
  }

  lemma {:induction false} FirstNoteAccepted(events: seq<Note>, cap: nat, w: nat, i: nat, since: nat)
    requires i < |events| && FirstNote(events, i, w, since) && since <= events[i].time
    ensures AcceptedAt(events, cap, w, i)
  {
    var v := Visible(LogAt(events, cap, w, i), cap);
    forall x | 0 <= x < |v| && v[x].hash == events[i].hash ensures !Recent(v[x], events[i].time, w) {
      var j := VisibleAt(events[..i], cap, w, x);
      assert events[..i][j] == events[j];
    }
  }

  lemma {:induction false} AcceptedAdds(events: seq<Note>, cap: nat, w: nat, i: nat, next: nat)
    requires NonDecreasing(events) && i < next <= |events| && AcceptedAt(events, cap, w, i)
    ensures |LogAt(events, cap, w, next)| >= |LogAt(events, cap, w, i)| + 1
  {
    LogAtStep(events, cap, w, i);
    if i + 1 < next {
      LogGrows(events, cap, w, i + 1, next);
    }
  }

  /** By the time of its k-th event a burst has added at least k entries. */
  lemma {:induction false} BurstAdds(events: seq<Note>, cap: nat, w: nat, idx: seq<nat>, k: nat)
    requires NonDecreasing(events) && k < |idx| && Ascending(idx, |events|)
    requires FirstNotes(events, idx, w, events[idx[0]].time)
    ensures |LogAt(events, cap, w, idx[k])| >= |LogAt(events, cap, w, idx[0])| + k
  {
    if k > 0 {
      BurstAdds(events, cap, w, idx, k - 1);
      BurstTimes(events, idx, k - 1);
      assert FirstNote(events, idx[k - 1], w, events[idx[0]].time);
      FirstNoteAccepted(events, cap, w, idx[k - 1], events[idx[0]].time);
      AcceptedAdds(events, cap, w, idx[k - 1], idx[k]);
    }
  }

  lemma {:induction false} BurstTimes(events: seq<Note>, idx: seq<nat>, k: nat)
    requires NonDecreasing(events) && k < |idx| && Ascending(idx, |events|)
    ensures idx[0] <= idx[k] && events[idx[0]].time <= events[idx[k]].time
  {
  }

  /** Once cap entries have been added since event a, the visible ones are no older than it. */
  lemma {:induction false} VisibleSince(events: seq<Note>, cap: nat, w: nat, a: nat, b: nat)
    requires NonDecreasing(events) && a <= b < |events|
    requires |LogAt(events, cap, w, b)| >= |LogAt(events, cap, w, a)| + cap
    ensures |Visible(LogAt(events, cap, w, b), cap)| == cap
    ensures forall x :: 0 <= x < cap ==> Visible(LogAt(events, cap, w, b), cap)[x].time >= events[a].time
  {
    LogGrows(events, cap, w, a, b);
  }

  lemma {:induction false} ReturnAt(events: seq<Note>, cap: nat, w: nat, n: nat)
    requires n + 1 == |events|
    ensures RingReturn(events, cap, w) == if AcceptedAt(events, cap, w, n)
              then CountRecent(Visible(LogAt(events, cap, w, n), cap), events[n].time, w) + 1 else 0
  {
  }

  lemma {:induction false} FullRingReports(events: seq<Note>, cap: nat, w: nat, a: nat, n: nat)
    requires NonDecreasing(events) && a <= n && n + 1 == |events|
    requires AcceptedAt(events, cap, w, n) && events[n].time - events[a].time <= w
    requires |LogAt(events, cap, w, n)| >= |LogAt(events, cap, w, a)| + cap
    ensures RingReturn(events, cap, w) == cap + 1
  {
    ReturnAt(events, cap, w, n);
    VisibleSince(events, cap, w, a, n);
    var v := Visible(LogAt(events, cap, w, n), cap);
    CountAll(v, events[n].time, w);
  }

  /** Burst completeness: threshold + 1 distinct hashes within one window, wherever the window
      falls, are always reported: the answer to the last of them exceeds the threshold. */
  lemma {:induction false} BurstIsReported(events: seq<Note>, threshold: nat, w: nat, idx: seq<nat>)
    requires NonDecreasing(events) && Burst(events, w, idx) && |idx| == threshold + 1
    ensures RingReturn(events, threshold, w) == threshold + 1
  {
    BurstAdds(events, threshold, w, idx, threshold);
    BurstTimes(events, idx, threshold);
    assert FirstNote(events, idx[threshold], w, events[idx[0]].time);
    FirstNoteAccepted(events, threshold, w, idx[threshold], events[idx[0]].time);
    FullRingReports(events, threshold, w, idx[0], idx[threshold]);
  }

  // ----- the ring

  /** A full ring read from its cursor round to its cursor is the visible part of the log;
      a ring not yet full is the log itself. */
  ghost predicate Rotation(slots: seq<Note>, next: nat, cap: nat, log: seq<Note>) {
    && next < cap
    && if |slots| < cap then next == |slots| && slots == log
       else |slots| == cap <= |log| && slots[next..] + slots[..next] == log[|log| - cap..]
  }

  lemma {:induction false} CountRotation(slots: seq<Note>, next: nat, cap: nat, log: seq<Note>, now: nat, w: nat)
    requires Rotation(slots, next, cap, log)
    ensures CountRecent(slots, now, w) == CountRecent(Visible(log, cap), now, w)
  {
    if |slots| == cap {
      assert slots == slots[..next] + slots[next..];
      CountConcat(slots[..next], slots[next..], now, w);
      CountConcat(slots[next..], slots[..next], now, w);
    }
  }

  lemma {:induction false} SeenRotation(slots: seq<Note>, next: nat, cap: nat, log: seq<Note>, h: nat, now: nat, w: nat)
    requires Rotation(slots, next, cap, log)
    ensures Seen(slots, h, now, w) <==> Seen(Visible(log, cap), h, now, w)
  {
    if |slots| == cap {
      var v := slots[next..] + slots[..next];
      assert v == Visible(log, cap);
      if Seen(slots, h, now, w) {
        var i :| 0 <= i < |slots| && slots[i].hash == h && Recent(slots[i], now, w);
        assert v[if i < next then i + cap - next else i - next] == slots[i];
      }
      if Seen(v, h, now, w) {
        var i :| 0 <= i < |v| && v[i].hash == h && Recent(v[i], now, w);
        assert slots[if i < cap - next then i + next else i - (cap - next)] == v[i];
      }
    }
  }

  /** Writing at the cursor overwrites the oldest visible entry. */
  lemma {:induction false} RotationStep(slots: seq<Note>, next: nat, cap: nat, log: seq<Note>, e: Note)
    requires Rotation(slots, next, cap, log)
    ensures Rotation(if |slots| < cap then slots + [e] else slots[next := e],
                     if next + 1 == cap then 0 else next + 1, cap, log + [e])
  {
    if |slots| < cap {
      var s := slots + [e];
      if |s| == cap {
        assert s[0..] + s[..0] == s;
        assert (log + [e])[|log + [e]| - cap..] == log + [e];
      }
    } else {
      var s := slots[next := e];
      var v := slots[next..] + slots[..next];
      assert v[1..] == slots[next + 1..] + slots[..next];
      assert (log + [e])[|log + [e]| - cap..] == v[1..] + [e];
      if next + 1 == cap {
        assert s[0..] + s[..0] == slots[..next] + [e];
      } else {
        assert s[next + 1..] + s[..next + 1] == slots[next + 1..] + slots[..next] + [e];
      }
    }
  }

  lemma {:induction false} ScanStep(slots: seq<Note>, i: nat, h: nat, now: nat, w: nat)
    requires i < |slots|
    ensures CountRecent(slots[..i + 1], now, w)
         == CountRecent(slots[..i], now, w) + (if Recent(slots[i], now, w) then 1 else 0)
    ensures Seen(slots[..i + 1], h, now, w)
       <==> Seen(slots[..i], h, now, w) || (slots[i].hash == h && Recent(slots[i], now, w))
  {
    var p, q := slots[..i], slots[..i + 1];
    assert q == p + [slots[i]] && q[..i] == p;
    if Seen(p, h, now, w) {
      var k :| 0 <= k < i && p[k].hash == h && Recent(p[k], now, w);
      assert q[k] == p[k];
    }
    assert q[i] == slots[i];
  }

  /** One more event, in terms of what the ring can see. */
  lemma {:induction false} RingStep(events: seq<Note>, e: Note, cap: nat, w: nat)
    ensures var log := RingLog(events, cap, w);
            var v := Visible(log, cap);
            && RingLog(events + [e], cap, w) == (if Seen(v, e.hash, e.time, w) then log else log + [e])
            && RingReturn(events + [e], cap, w)
                 == if Seen(v, e.hash, e.time, w) then 0 else CountRecent(v, e.time, w) + 1
  {
    assert (events + [e])[..|events|] == events;
  }

  ghost predicate Tracks(slots: seq<Note>, next: nat, cap: nat, w: nat, events: seq<Note>) {
    Rotation(slots, next, cap, RingLog(events, cap, w))
  }

  function Stored(slots: seq<Note>, next: nat, cap: nat, e: Note): seq<Note>
    requires next < cap && (|slots| < cap || next < |slots|)
  {
    if |slots| < cap then slots + [e] else slots[next := e]
  }

  /** One more event, decided on the slots alone. */
  lemma {:induction false} NoteStep(slots: seq<Note>, next: nat, cap: nat, w: nat, events: seq<Note>, e: Note)
    requires Tracks(slots, next, cap, w, events)
    ensures var seen := Seen(slots, e.hash, e.time, w);
            && RingReturn(events + [e], cap, w) == (if seen then 0 else CountRecent(slots, e.time, w) + 1)
            && if seen then Tracks(slots, next, cap, w, events + [e])
               else Tracks(Stored(slots, next, cap, e), if next + 1 == cap then 0 else next + 1, cap, w, events + [e])
  {
    var log := RingLog(events, cap, w);
    CountRotation(slots, next, cap, log, e.time, w);
    SeenRotation(slots, next, cap, log, e.hash, e.time, w);
    RotationStep(slots, next, cap, log, e);
    RingStep(events, e, cap, w);
  }

  /** One detector. `events` is everything noted since the last reset, `slots` the contents of
      the valid slots. */
  class Ring {
    const cap: nat
    const window: nat
    var hashes: array<nat>
    var stamps: array<nat>
    var next: nat
    var filled: nat
    ghost var slots: seq<Note>
    ghost var events: seq<Note>

    ghost predicate Holds()
      reads this, hashes, stamps
    {
      && hashes.Length == stamps.Length == cap && hashes != stamps
      && filled == |slots| <= cap && next < cap && (filled < cap ==> next == filled)
      && forall i :: 0 <= i < filled ==> slots[i] == Note(hashes[i], stamps[i])
    }

    ghost predicate Valid()
      reads this, hashes, stamps
    {
      Holds() && Tracks(slots, next, cap, window, events)
    }

    constructor (cap: nat, window: nat)
      requires cap > 0
      ensures this.cap == cap && this.window == window
      ensures Valid() && events == [] && fresh(hashes) && fresh(stamps)
    {
      this.cap := cap;
      this.window := window;
      hashes := new nat[cap];
      stamps := new nat[cap];
      next, filled, slots, events := 0, 0, [], [];
    }

    method Reset()
      requires Valid()
      modifies this
      ensures Valid() && events == [] && hashes == old(hashes) && stamps == old(stamps)
    {
      next, filled, slots, events := 0, 0, [], [];
    }

    /** The scan of the valid slots. */
    method Scan(hash: nat, now: nat) returns (inWindow: nat, seen: bool)
      requires Holds()
      ensures inWindow == CountRecent(slots, now, window)
      ensures seen == Seen(slots, hash, now, window)
    {
      inWindow, seen := 0, false;
      for i := 0 to filled
        invariant inWindow == CountRecent(slots[..i], now, window)
        invariant seen == Seen(slots[..i], hash, now, window)
      {
        ScanStep(slots, i, hash, now, window);
        if now - stamps[i] <= window {
          inWindow := inWindow + 1;
          if hashes[i] == hash {
            seen := true;
          }
        }
      }
      assert slots[..filled] == slots;
    }

    method Store(hash: nat, now: nat)
      requires Holds()
      modifies this`next, this`filled, this`slots, hashes, stamps
      ensures Holds()
      ensures slots == Stored(old(slots), old(next), cap, Note(hash, now))
      ensures next == if old(next) + 1 == cap then 0 else old(next) + 1
    {
      hashes[next] := hash;
      stamps[next] := now;
      slots := Stored(slots, next, cap, Note(hash, now));
      CursorWraps(next, cap);
      next := (next + 1) % cap;
      if filled < cap {
        filled := filled + 1;
      }
    }

    /** Stores an event that is not a repeat. */
    method Accept(hash: nat, now: nat)
      requires Valid()
      requires Tracks(Stored(slots, next, cap, Note(hash, now)), if next + 1 == cap then 0 else next + 1, cap, window,
                      events + [Note(hash, now)])
      modifies this, hashes, stamps
      ensures Valid() && hashes == old(hashes) && stamps == old(stamps)
      ensures events == old(events) + [Note(hash, now)]
    {
      Store(hash, now);
      events := events + [Note(hash, now)];
    }

    /** Passes over a repeat. */
    method Ignore(hash: nat, now: nat)
      requires Holds() && Tracks(slots, next, cap, window, events + [Note(hash, now)])
      modifies this`events
      ensures Valid() && events == old(events) + [Note(hash, now)]
    {
      events := events + [Note(hash, now)];
    }

    /** Notes one event and answers how many distinct hashes are now recent, or 0 for a repeat. */
    method NoteHash(hash: nat, now: nat) returns (n: nat)
      requires Valid()
      modifies this, hashes, stamps
      ensures Valid() && hashes == old(hashes) && stamps == old(stamps)
      ensures events == old(events) + [Note(hash, now)]
      ensures n == RingReturn(events, cap, window)
    {
      var inWindow, seen := Scan(hash, now);
      NoteStep(slots, next, cap, window, events, Note(hash, now));
      if seen {
        Ignore(hash, now);
        return 0;
      }
      Accept(hash, now);
      n := inWindow + 1;
    }
  }

  lemma {:induction false} CursorWraps(next: nat, cap: nat)
    requires next < cap
    ensures (next + 1) % cap == if next + 1 == cap then 0 else next + 1
  {
  }
}
