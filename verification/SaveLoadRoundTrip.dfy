/** Save and load compose: a dump replayed onto any state adds what is missing. */
module SaveLoadRoundTrip {
  import opened Options
  import opened Text
  import opened SigTable
  import opened ProcWrite
  import opened SaveLoad
  import opened SaveLoadReplay
  import opened SaveLoadDump
  import Seqs

  // ----- the replay

  /** The signatures after a reload: those that were there, and of the saved ones as many as the
      table has room for. */
  ghost predicate FillsUp(before: SigTable.Contents, all: SigTable.Contents, after: SigTable.Contents) {
    && (forall k :: k in before ==> k in after && after[k] == before[k])
    && (forall k :: k in after ==> k in all && after[k] == all[k])
    && |after| == Seqs.Min(MAX_SIGS, |all|)
  }

  lemma {:induction false} FillsUpAll(before: SigTable.Contents, all: SigTable.Contents, after: SigTable.Contents)
    requires FillsUp(before, all, after)
    ensures after == all <==> |all| <= MAX_SIGS
  {
    assert |after| == |after.Keys| && |all| == |all.Keys|;
    Seqs.SubsetSize(after.Keys, all.Keys);
  }

  /** Every listed signature comes from the table, and every one in the table is listed. */
  ghost predicate SigsListed(l: seq<Sig>, m: SigTable.Contents) {
    && DistinctKeys(SigKeys(l))
    && (forall i :: 0 <= i < |l| ==> KeyOf(l[i]) in m && m[KeyOf(l[i])] == l[i])
    && (forall k :: k in m ==> k in SigKeys(l))
  }

  lemma {:induction false} SigsListedTail(l: seq<Sig>, m: SigTable.Contents)
    requires SigsListed(l, m) && l != []
    ensures SigsListed(l[1..], m - {KeyOf(l[0])})
  {
    var rest := l[1..];
    assert SigKeys(l)[1..] == SigKeys(rest);
    DistinctTail(SigKeys(l));
    forall i | 0 <= i < |rest| ensures KeyOf(rest[i]) in m - {KeyOf(l[0])} {
      assert rest[i] == l[i + 1] && SigKeys(rest)[i] == KeyOf(rest[i]);
    }
  }

  lemma {:induction false} RejectedOne(c: SigTable.Contents, m: SigTable.Contents, s: Sig)
    requires KeyOf(s) in m && m[KeyOf(s)] == s && KeyOf(s) !in c
    ensures |m + c| == |m - {KeyOf(s)} + c| + 1
  {
    Seqs.MergeNew(m, KeyOf(s), c);
    Seqs.PutSize(m - {KeyOf(s)} + c, KeyOf(s), s);
  }

  lemma {:induction false} KeptOne(c: SigTable.Contents, m: SigTable.Contents, s: Sig)
    requires KeyOf(s) in m && m[KeyOf(s)] == s && Rejected(c, s) == 0
    ensures m - {KeyOf(s)} + Kept(c, s) == m + c
  {
    if KeyOf(s) in c {
      Seqs.MergeKnown(m, KeyOf(s), c);
    } else {
      Seqs.MergeNew(m, KeyOf(s), c);
    }
  }

  lemma {:induction false} KeptBound(c: SigTable.Contents, s: Sig)
    requires |c| <= MAX_SIGS
    ensures |Kept(c, s)| <= MAX_SIGS && forall x :: x in c ==> x in Kept(c, s) && Kept(c, s)[x] == c[x]
  {
    Seqs.PutSize(c, KeyOf(s), s);
  }

  lemma {:induction false} AtLeast(c: SigTable.Contents, d: SigTable.Contents)
    requires forall k :: k in c ==> k in d
    ensures |c| <= |d|
  {
    Seqs.SubsetSize(c.Keys, d.Keys);
    assert |c| == |c.Keys| && |d| == |d.Keys|;
  }

  /** A signature that a full table rejects changes neither the table nor what it has room for. */
  lemma {:induction false} FillsRejected(c: SigTable.Contents, m: SigTable.Contents, s: Sig, after: SigTable.Contents)
    requires KeyOf(s) in m && m[KeyOf(s)] == s && |c| <= MAX_SIGS && Rejected(c, s) == 1
    requires FillsUp(c, m - {KeyOf(s)} + c, after)
    ensures FillsUp(c, m + c, after) && |m + c| - |after| == 1 + |m - {KeyOf(s)} + c| - |after|
  {
    RejectedOne(c, m, s);
    AtLeast(c, after);
  }

  lemma {:induction false} FillsKept(c: SigTable.Contents, d: SigTable.Contents, all: SigTable.Contents,
                                     after: SigTable.Contents)
    requires FillsUp(d, all, after) && forall x :: x in c ==> x in d && d[x] == c[x]
    ensures FillsUp(c, all, after)
  {
  }

  lemma {:induction false} FillsStep(c: SigTable.Contents, m: SigTable.Contents, s: Sig, after: SigTable.Contents)
    requires KeyOf(s) in m && m[KeyOf(s)] == s && |c| <= MAX_SIGS
    requires FillsUp(Kept(c, s), m - {KeyOf(s)} + Kept(c, s), after)
    ensures FillsUp(c, m + c, after)
    ensures |m + c| == Rejected(c, s) + |m - {KeyOf(s)} + Kept(c, s)|
  {
    if Rejected(c, s) == 1 {
      FillsRejected(c, m, s, after);
    } else {
      KeptBound(c, s);
      KeptOne(c, m, s);
      FillsKept(c, Kept(c, s), m + c, after);
    }
  }

  /** The table fills up to its limit, and what it refuses is what the union has beyond that. */
  lemma {:induction false} FilledFacts(c: SigTable.Contents, l: seq<Sig>, m: SigTable.Contents)
    requires SigsListed(l, m) && |c| <= MAX_SIGS
    ensures FillsUp(c, m + c, Filled(c, l)) && |m + c| == Rejects(c, l) + |Filled(c, l)|
    decreases |l|
  {
    if l == [] {
      assert m == map[];
      assert m + c == c;
    } else {
      var s := l[0];
      assert SigKeys(l)[0] == KeyOf(s);
      SigsListedTail(l, m);
      KeptBound(c, s);
      FilledFacts(Kept(c, s), l[1..], m - {KeyOf(s)});
      FillsStep(c, m, s, Filled(c, l));
    }
  }

  lemma {:induction false} SkipsOne(c: SigTable.Contents, s: Sig, all: set<Key>)
    requires KeyOf(s) in all
    ensures |all * c.Keys| == Known(c, s) + |(all - {KeyOf(s)}) * Kept(c, s).Keys|
  {
    var k, d := KeyOf(s), Kept(c, s);
    CommonOne(k, all, c.Keys);
    assert (all - {k}) * d.Keys == (all - {k}) * (c.Keys + {k});
  }

  lemma {:induction false} SkipsCount(c: SigTable.Contents, l: seq<Sig>, all: set<Key>)
    requires DistinctKeys(SigKeys(l)) && forall k :: k in SigKeys(l) <==> k in all
    ensures Skips(c, l) == |all * c.Keys| && |l| == |all|
    decreases |l|
  {
    if l == [] {
      assert all == {};
    } else {
      var k := KeyOf(l[0]);
      assert SigKeys(l)[1..] == SigKeys(l[1..]) && SigKeys(l)[0] == k;
      DistinctTail(SigKeys(l));
      SkipsCount(Kept(c, l[0]), l[1..], all - {k});
      SkipsOne(c, l[0], all);
      CommonOne(k, all, c.Keys);
    }
  }

  /** How many saved entries `st` already has, and how many signatures find the table full. */
  function KnownSigs(saved: State, st: State): nat {
    |saved.sigs.Keys * st.sigs.Keys|
  }

  function KnownTrusts(saved: State, st: State): nat {
    |saved.trusted.Keys * st.trusted.Keys|
  }

  function KnownPaths(saved: State, st: State): nat {
    |saved.shielded * st.shielded|
  }

  function Overflow(all: SigTable.Contents): nat {
    if |all| <= MAX_SIGS then 0 else |all| - MAX_SIGS
  }

  /** The protected paths as a reload takes them: every line of them that is an absolute path after
      its blanks, without a trailing carriage return. */
  function TakenAll(s: set<string>): set<string> {
    set p, q | p in s && q in LinesOf(p) && Accepted(q) :: Entered(q)
  }

  /** Lines that a reload refuses. */
  function RefusedLines(l: Listing): nat {
    |Pieces(l.shielded)| - |EnteredAll(Pieces(l.shielded))|
  }

  function KnownLines(l: Listing, st: State): nat {
    Clashes(EnteredAll(Pieces(l.shielded)), st.shielded)
  }

  /** The report of a replay: known signatures and paths are skipped; known hashes, lines that are no
      absolute path and signatures beyond the table's room are errors; everything else is loaded. */
  ghost predicate Replays(r: Report, saved: State, l: Listing, st: State, before: nat) {
    && FillsUp(st.sigs, saved.sigs + st.sigs, r.state.sigs)
    && r.state.trusted == saved.trusted + st.trusted
    && r.state.shielded == TakenAll(saved.shielded) + st.shielded
    && r.state.failClosed == saved.failClosed
    && r.skipped == KnownSigs(saved, st) + KnownLines(l, st)
    && r.errors == before + Overflow(saved.sigs + st.sigs) + KnownTrusts(saved, st) + RefusedLines(l)
    && r.loaded + r.skipped + r.errors
       == before + |saved.sigs| + |saved.trusted| + |Pieces(l.shielded)| + 1
  }

  lemma {:induction false} SigKeysIn(l: Listing, saved: State)
    requires Lists(l, saved) && Listable(saved)
    ensures SigsListed(l.sigs, saved.sigs) && forall k :: k in SigKeys(l.sigs) <==> k in saved.sigs.Keys
  {
    forall k ensures k in SigKeys(l.sigs) <==> k in saved.sigs.Keys {
      if k in saved.sigs {
        assert saved.sigs[k] in l.sigs;
        var i :| 0 <= i < |l.sigs| && l.sigs[i] == saved.sigs[k];
        assert SigKeys(l.sigs)[i] == k;
      }
      if k in SigKeys(l.sigs) {
        var i :| 0 <= i < |l.sigs| && SigKeys(l.sigs)[i] == k;
        assert l.sigs[i] in l.sigs;
      }
    }
    forall i | 0 <= i < |l.sigs| ensures KeyOf(l.sigs[i]) in saved.sigs && saved.sigs[KeyOf(l.sigs[i])] == l.sigs[i] {
      assert l.sigs[i] in l.sigs;
    }
  }

  lemma {:induction false} OverflowIs(before: SigTable.Contents, all: SigTable.Contents, after: SigTable.Contents)
    requires FillsUp(before, all, after)
    ensures |all| == Overflow(all) + |after|
  {
  }

  lemma {:induction false} SigsFill(l: Listing, saved: State, st: State)
    requires Lists(l, saved) && Listable(saved) && |st.sigs| <= MAX_SIGS
    ensures FillsUp(st.sigs, saved.sigs + st.sigs, Filled(st.sigs, l.sigs))
    ensures Rejects(st.sigs, l.sigs) == Overflow(saved.sigs + st.sigs)
  {
    SigKeysIn(l, saved);
    FilledFacts(st.sigs, l.sigs, saved.sigs);
    OverflowIs(st.sigs, saved.sigs + st.sigs, Filled(st.sigs, l.sigs));
  }

  lemma {:induction false} SigsSkip(l: Listing, saved: State, st: State)
    requires Lists(l, saved) && Listable(saved)
    ensures Skips(st.sigs, l.sigs) == KnownSigs(saved, st) && |l.sigs| == |saved.sigs|
  {
    SigKeysIn(l, saved);
    SkipsCount(st.sigs, l.sigs, saved.sigs.Keys);
    assert |saved.sigs| == |saved.sigs.Keys|;
  }

  lemma {:induction false} TrustPart(l: Listing, saved: State, st: State)
    requires Lists(l, saved)
    ensures TrustMap(l.trusted) == saved.trusted && |l.trusted| == |saved.trusted|
    ensures Clashes(TrustKeys(l.trusted), st.trusted.Keys) == KnownTrusts(saved, st)
  {
    TrustMapListing(l.trusted, saved.trusted);
    forall h ensures h in TrustKeys(l.trusted) <==> h in saved.trusted.Keys {
      if h in saved.trusted {
        assert (h, saved.trusted[h]) in l.trusted;
        var i :| 0 <= i < |l.trusted| && l.trusted[i] == (h, saved.trusted[h]);
        assert TrustKeys(l.trusted)[i] == h;
      }
      if h in TrustKeys(l.trusted) {
        var i :| 0 <= i < |l.trusted| && TrustKeys(l.trusted)[i] == h;
        assert l.trusted[i] in l.trusted;
      }
    }
    ClashesCounts(TrustKeys(l.trusted), saved.trusted.Keys, st.trusted.Keys);
    assert |saved.trusted| == |saved.trusted.Keys|;
  }

  lemma {:induction false} PathSetIn(l: seq<string>, x: string)
    ensures x in PathSet(l) <==> exists q :: q in l && Accepted(q) && Entered(q) == x
  {
    if l != [] {
      PathSetIn(l[1..], x);
      assert l == [l[0]] + l[1..];
    }
  }

  lemma {:induction false} PathPart(l: Listing, saved: State)
    requires Lists(l, saved)
    ensures PathSet(Pieces(l.shielded)) == TakenAll(saved.shielded)
  {
    forall x ensures x in PathSet(Pieces(l.shielded)) <==> x in TakenAll(saved.shielded) {
      PathSetIn(Pieces(l.shielded), x);
      if q :| q in Pieces(l.shielded) && Accepted(q) && Entered(q) == x {
        PieceIn(l.shielded, q);
        var p :| p in l.shielded && q in LinesOf(p);
        assert p in saved.shielded;
      }
      if x in TakenAll(saved.shielded) {
        var p, q :| p in saved.shielded && q in LinesOf(p) && Accepted(q) && Entered(q) == x;
        assert p in l.shielded;
        PieceIn(l.shielded, q);
      }
    }
  }

  lemma {:induction false} PieceIn(l: seq<string>, q: string)
    ensures q in Pieces(l) <==> q != "" && exists p :: p in l && q in LinesOf(p)
  {
    NonEmptyIn(AllLines(l), q);
    AllLinesIn(l, q);
  }

  lemma {:induction false} FourPhases(r: Report, slot: string -> nat, a: seq<string>, b: seq<string>, c: seq<string>,
                                      d: string)
    ensures LoadAll(r, slot, a + b + c + [d])
      == LoadLine(LoadAll(LoadAll(LoadAll(r, slot, a), slot, b), slot, c), slot, d)
  {
    LoadAppend(r, slot, a + b + c, [d]);
    LoadAppend(r, slot, a + b, c);
    LoadAppend(r, slot, a, b);
    LoadJust(LoadAll(r, slot, a + b + c), slot, d);
  }

  lemma {:induction false} LoadJust(r: Report, slot: string -> nat, d: string)
    ensures LoadAll(r, slot, [d]) == LoadLine(r, slot, d)
  {
    var lines := [d];
    assert lines[1..] == [];
  }

  /** The report after all commands of a listing. */
  function AfterAll(r: Report, l: Listing): Report {
    var q := AfterPaths(AfterTrusts(AfterSigs(r, l.sigs), l.trusted), Pieces(l.shielded));
    Replayed(q, q.state.(failClosed := l.failClosed), 1, 0, 0)
  }

  lemma {:induction false} CommandsRun(r: Report, l: Listing, slot: string -> nat)
    requires SigsFit(l.sigs) && TrustsFit(l.trusted) && PathsFit(l.shielded)
    ensures LoadAll(r, slot, Commands(l)) == AfterAll(r, l)
  {
    LinesFit(l.shielded);
    FourPhases(r, slot, SigCommands(l.sigs), TrustCommands(l.trusted), PathCommands(Pieces(l.shielded)),
               "policy " + PolicyText(l.failClosed));
    SigsReplay(r, slot, l.sigs);
    TrustReplay(AfterSigs(r, l.sigs), slot, l.trusted);
    PathsReplay(AfterTrusts(AfterSigs(r, l.sigs), l.trusted), slot, Pieces(l.shielded));
    PolicyLine(AfterPaths(AfterTrusts(AfterSigs(r, l.sigs), l.trusted), Pieces(l.shielded)), slot, l.failClosed);
  }

  lemma {:induction false} AfterAllIs(st: State, before: nat, l: Listing)
    ensures var r := AfterAll(Report(st, 0, 0, before), l);
      && r.state == State(Filled(st.sigs, l.sigs), TrustMap(l.trusted) + st.trusted,
                          PathSet(Pieces(l.shielded)) + st.shielded, l.failClosed)
      && r.skipped == Skips(st.sigs, l.sigs) + KnownLines(l, st)
      && r.errors == before + Rejects(st.sigs, l.sigs) + Clashes(TrustKeys(l.trusted), st.trusted.Keys)
                     + RefusedLines(l)
      && r.loaded + r.skipped + r.errors == before + |l.sigs| + |l.trusted| + |Pieces(l.shielded)| + 1
  {
  }

  lemma {:induction false} AllReplays(saved: State, l: Listing, st: State, before: nat)
    requires Lists(l, saved) && Listable(saved) && |st.sigs| <= MAX_SIGS
    ensures Replays(AfterAll(Report(st, 0, 0, before), l), saved, l, st, before)
  {
    AfterAllIs(st, before, l);
    SigsFill(l, saved, st);
    SigsSkip(l, saved, st);
    TrustPart(l, saved, st);
    PathPart(l, saved);
  }

  /** The body of any dump, replayed onto any state. */
  lemma {:induction false} BodyReplays(saved: State, l: Listing, st: State, slot: string -> nat, before: nat)
    requires Lists(l, saved) && Listable(saved) && |st.sigs| <= MAX_SIGS
    ensures Replays(LoadText(Report(st, 0, 0, before), slot, Dump(None, l)), saved, l, st, before)
  {
    ListingFits(l, saved);
    DumpBody(l);
    LoadUnlines(Report(st, 0, 0, before), slot, Commands(l));
    CommandsRun(Report(st, 0, 0, before), l, slot);
    AllReplays(saved, l, st, before);
  }

  predicate HeaderFits(path: Option<string>) {
    path.Some? ==> |Header(path.value)| + 1 < LINE
  }

  predicate OneLine(path: Option<string>) {
    path.Some? ==> NoNewline(path.value) && NoNul(path.value)
  }

  lemma {:induction false} HeaderIsOneLine(path: string)
    requires NoNewline(path) && NoNul(path)
    ensures NoNewline(Header(path)) && NoNul(Header(path)) && Header(path)[0] == '#'
  {
    var t, h := TITLE, HINT;
    assert t[0] == '#' && NoNewline(t) && NoNul(t);
    assert NoNewline(h) && NoNul(h);
    assert Header(path) == t + h + path;
  }

  lemma {:induction false} PlainLoad(r: Report, slot: string -> nat, line: string, rest: string)
    requires Plain(line)
    ensures LoadText(r, slot, line + "\n" + rest) == LoadText(LoadLine(r, slot, line), slot, rest)
  {
    PlainRead(line, rest);
  }

  lemma {:induction false} HeaderSkipped(r: Report, slot: string -> nat, h: string, rest: string)
    requires Plain(h) && h != "" && h[0] == '#'
    ensures LoadText(r, slot, h + "\n" + rest) == LoadText(r, slot, rest)
  {
    PlainRead(h, rest);
  }

  /** A dump of any state, replayed onto any state: the report says exactly what was added, skipped
      and refused. A header that overruns the line buffer is one more error. */
  lemma {:induction false} LoadOfDump(path: Option<string>, saved: State, l: Listing, st: State, slot: string -> nat)
    requires Lists(l, saved) && Listable(saved) && |st.sigs| <= MAX_SIGS && OneLine(path)
    ensures Replays(LoadText(Report(st, 0, 0, 0), slot, Dump(path, l)), saved, l, st, if HeaderFits(path) then 0 else 1)
  {
    var r0 := Report(st, 0, 0, 0);
    if path.None? {
      BodyReplays(saved, l, st, slot, 0);
    } else {
      var h, rest := Header(path.value), Dump(None, l);
      HeaderFirst(path.value, l);
      HeaderIsOneLine(path.value);
      if HeaderFits(path) {
        HeaderSkipped(r0, slot, h, rest);
        BodyReplays(saved, l, st, slot, 0);
      } else {
        LoadOverlong(r0, slot, h, rest);
        BodyReplays(saved, l, st, slot, 1);
      }
    }
  }

  // ----- a well-formed state comes back as it is

  /** The saved entries added to `st`, which keeps its own where both have one; the saved policy. */
  function Merged(saved: State, st: State): State {
    State(saved.sigs + st.sigs, saved.trusted + st.trusted, saved.shielded + st.shielded, saved.failClosed)
  }

  lemma {:induction false} NoBlanks(p: string)
    requires p != "" && p[0] == '/'
    ensures AfterBlanks(p) == p
  {
  }

  /** A path on one line is its own only line, taken without a trailing carriage return. */
  lemma {:induction false} OneLineTaken(p: string)
    requires PathOk(p) && NoNewline(p)
    ensures LinesOf(p) == [p] && Accepted(p) && Entered(p) == Trimmed(p)
  {
    OneLineOf(p);
    NoBlanks(p);
  }

  lemma {:induction false} PlainLines(l: seq<string>)
    requires PathsFit(l) && forall i :: 0 <= i < |l| ==> Reloads(l[i])
    ensures Pieces(l) == l && EnteredAll(l) == l
  {
    if l != [] {
      OneLineTaken(l[0]);
      PlainLines(l[1..]);
      assert ([l[0]] + AllLines(l[1..]))[1..] == AllLines(l[1..]);
      assert l == [l[0]] + l[1..];
    }
  }

  lemma {:induction false} AllTaken(s: set<string>)
    requires forall p :: p in s ==> PathOk(p) && Reloads(p)
    ensures TakenAll(s) == s
  {
    forall x ensures x in TakenAll(s) <==> x in s {
      if x in s {
        OneLineTaken(x);
        assert x in LinesOf(x);
      }
      if x in TakenAll(s) {
        var p, q :| p in s && q in LinesOf(p) && Accepted(q) && Entered(q) == x;
        OneLineTaken(p);
      }
    }
  }

  lemma {:induction false} PlainListing(l: Listing, saved: State, st: State)
    requires Lists(l, saved) && WellFormed(saved)
    ensures TakenAll(saved.shielded) == saved.shielded && RefusedLines(l) == 0
    ensures KnownLines(l, st) == KnownPaths(saved, st)
  {
    ListingFits(l, saved);
    forall i | 0 <= i < |l.shielded| ensures Reloads(l.shielded[i]) {
      assert l.shielded[i] in l.shielded;
    }
    PlainLines(l.shielded);
    AllTaken(saved.shielded);
    ClashesCounts(l.shielded, saved.shielded, st.shielded);
  }

  lemma {:induction false} PartOfUnion(saved: State, st: State)
    ensures |st.sigs| <= |saved.sigs + st.sigs|
  {
    AtLeast(st.sigs, saved.sigs + st.sigs);
  }

  /** When every path reloads and the table has room, the replay is the union; the paths counted as
      present are those in common, and only known hashes and an overlong header are errors. */
  lemma {:induction false} LoadOfSave(path: Option<string>, saved: State, l: Listing, st: State, slot: string -> nat)
    requires Lists(l, saved) && WellFormed(saved) && |saved.sigs + st.sigs| <= MAX_SIGS && OneLine(path)
    ensures var r := LoadText(Report(st, 0, 0, 0), slot, Dump(path, l));
      && r.state == Merged(saved, st) && r.skipped == KnownSigs(saved, st) + KnownPaths(saved, st)
      && r.errors == KnownTrusts(saved, st) + (if HeaderFits(path) then 0 else 1)
  {
    PartOfUnion(saved, st);
    LoadOfDump(path, saved, l, st, slot);
    PlainListing(l, saved, st);
    FillsUpAll(st.sigs, saved.sigs + st.sigs, LoadText(Report(st, 0, 0, 0), slot, Dump(path, l)).state.sigs);
  }

  // ----- when a load reports no error

  lemma {:induction false} NoneInCommon(a: set<string>, b: set<string>)
    ensures |a * b| == 0 <==> a !! b
  {
    if a !! b {
      assert a * b == {};
    }
    if |a * b| == 0 {
      assert a * b == {};
      forall x | x in a ensures x !in b {
        assert x in b ==> x in a * b;
      }
    }
  }

  lemma {:induction false} NoneRefused(l: seq<string>)
    ensures |EnteredAll(l)| == |l| <==> forall i :: 0 <= i < |l| ==> Accepted(l[i])
  {
    if l != [] {
      NoneRefused(l[1..]);
      assert forall i :: 0 <= i < |l[1..]| ==> l[1..][i] == l[i + 1];
    }
  }

  /** Every line of a protected path is itself an absolute path, or empty. */
  ghost predicate LinesAccepted(s: set<string>) {
    forall p, q :: p in s && q in LinesOf(p) && q != "" ==> Accepted(q)
  }

  lemma {:induction false} RefusedExactly(l: Listing, saved: State)
    requires Lists(l, saved)
    ensures RefusedLines(l) == 0 <==> LinesAccepted(saved.shielded)
  {
    var pieces := Pieces(l.shielded);
    NoneRefused(pieces);
    if LinesAccepted(saved.shielded) {
      forall i | 0 <= i < |pieces| ensures Accepted(pieces[i]) {
        assert pieces[i] in pieces;
        PieceIn(l.shielded, pieces[i]);
      }
    }
    if RefusedLines(l) == 0 {
      forall p, q | p in saved.shielded && q in LinesOf(p) && q != "" ensures Accepted(q) {
        assert p in l.shielded;
        PieceIn(l.shielded, q);
        var i :| 0 <= i < |pieces| && pieces[i] == q;
      }
    }
  }

  /** What makes a load succeed: no saved hash is trusted yet, the table has room for the union, every
      line of a protected path is an absolute path, and the header fits. */
  ghost predicate NothingInTheWay(path: Option<string>, saved: State, st: State) {
    && saved.trusted.Keys !! st.trusted.Keys && |saved.sigs + st.sigs| <= MAX_SIGS
    && LinesAccepted(saved.shielded) && HeaderFits(path)
  }

  lemma {:induction false} LoadSucceeds(path: Option<string>, saved: State, l: Listing, st: State, slot: string -> nat)
    requires Lists(l, saved) && Listable(saved) && |st.sigs| <= MAX_SIGS && OneLine(path)
    ensures LoadText(Report(st, 0, 0, 0), slot, Dump(path, l)).errors == 0 <==> NothingInTheWay(path, saved, st)
  {
    LoadOfDump(path, saved, l, st, slot);
    NoneInCommon(saved.trusted.Keys, st.trusted.Keys);
    RefusedExactly(l, saved);
  }

  // ----- when a load restores the state

  const SEED_A := "275a021b"
  const SEED_B := "bfb6489e"
  const SEED_C := "54d47189"
  const SEED_D := "9f7db9d1"
  const SEED_E := "663fc695"
  const SEED_F := "ec2fe2a2"
  const SEED_G := "c4538aab"
  const SEED_H := "f651fd0f"
  const SEED_HEX := SEED_A + SEED_B + SEED_C + SEED_D + SEED_E + SEED_F + SEED_G + SEED_H
  const SEED_NAME := "EICAR-Test-File"

  /** The signature every load of the module adds. */
  function Seed(): Sig {
    Sig(SHA256, SEED_HEX, SEED_NAME)
  }

  predicate LowDigit(c: char) {
    '0' <= c <= '9' || 'a' <= c <= 'f'
  }

  predicate LowHex(s: string) {
    forall i :: 0 <= i < |s| ==> LowDigit(s[i])
  }

  lemma {:induction false} EightDigits(s: string)
    requires |s| == 8 && LowDigit(s[0]) && LowDigit(s[1]) && LowDigit(s[2]) && LowDigit(s[3])
    requires LowDigit(s[4]) && LowDigit(s[5]) && LowDigit(s[6]) && LowDigit(s[7])
    ensures LowHex(s)
  {
  }

  lemma {:induction false} SeedPieces()
    ensures LowHex(SEED_A) && LowHex(SEED_B) && LowHex(SEED_C) && LowHex(SEED_D)
    ensures LowHex(SEED_E) && LowHex(SEED_F) && LowHex(SEED_G) && LowHex(SEED_H)
    ensures |SEED_A| == |SEED_B| == |SEED_C| == |SEED_D| == |SEED_E| == |SEED_F| == |SEED_G| == |SEED_H| == 8
  {
    EightDigits(SEED_A);
    EightDigits(SEED_B);
    EightDigits(SEED_C);
    EightDigits(SEED_D);
    EightDigits(SEED_E);
    EightDigits(SEED_F);
    EightDigits(SEED_G);
    EightDigits(SEED_H);
  }

  lemma {:induction false} LowHexJoins(a: string, b: string)
    requires LowHex(a) && LowHex(b)
    ensures LowHex(a + b)
  {
  }

  lemma {:induction false} SeedIsLowHex()
    ensures LowHex(SEED_HEX) && |SEED_HEX| == 64
  {
    SeedPieces();
    LowHexJoins(SEED_A, SEED_B);
    LowHexJoins(SEED_A + SEED_B, SEED_C);
    LowHexJoins(SEED_A + SEED_B + SEED_C, SEED_D);
    LowHexJoins(SEED_A + SEED_B + SEED_C + SEED_D, SEED_E);
    LowHexJoins(SEED_A + SEED_B + SEED_C + SEED_D + SEED_E, SEED_F);
    LowHexJoins(SEED_A + SEED_B + SEED_C + SEED_D + SEED_E + SEED_F, SEED_G);
    LowHexJoins(SEED_A + SEED_B + SEED_C + SEED_D + SEED_E + SEED_F + SEED_G, SEED_H);
  }

  lemma {:induction false} AddedToNone(hex: string, name: string)
    requires LowHex(hex) && |hex| == 64 && |name| <= NAME_MAX
    ensures Added(map[], SHA256, hex, name, true) == map[Key(SHA256, hex) := Sig(SHA256, hex, name)]
  {
    assert Lower(hex) == hex;
  }

  /** What the module adds on being loaded is exactly the seed. */
  lemma {:induction false} FreshIsSeeded()
    ensures Added(map[], SHA256, SEED_HEX, SEED_NAME, true) == Fresh().sigs
  {
    SeedIsLowHex();
    assert |SEED_NAME| == 15;
    AddedToNone(SEED_HEX, SEED_NAME);
  }

  /** A module that holds one signature. */
  function Holding(x: Sig, policy: bool): State {
    State(map[KeyOf(x) := x], map[], {}, policy)
  }

  /** A module just loaded: only the seed. */
  function Fresh(): State {
    Holding(Seed(), false)
  }

  lemma {:induction false} EnteredPlain(q: string)
    requires NoNewline(q)
    ensures NoNewline(Entered(q))
  {
    BlanksBefore(q);
  }

  /** If a reload takes back the same paths, none of them has a newline: what it takes has none. */
  lemma {:induction false} NoNewlineLeft(s: set<string>, p: string)
    requires TakenAll(s) == s && p in s && forall q :: q in s ==> PathOk(q)
    ensures NoNewline(p)
  {
    var x, q :| x in s && q in LinesOf(x) && Accepted(q) && Entered(q) == p;
    LineFits(x, q);
    EnteredPlain(q);
  }

  lemma {:induction false} TakenFrom(s: set<string>, p: string) returns (x: string)
    requires p in TakenAll(s) && forall q :: q in s ==> PathOk(q) && NoNewline(q)
    ensures x in s && Trimmed(x) == p
  {
    var q;
    x, q :| x in s && q in LinesOf(x) && Accepted(q) && Entered(q) == p;
    OneLineTaken(x);
  }

  /** Nor is any trimmed: one that is would have to come from a longer one that is, and so on past
      the longest. */
  lemma {:induction false} NoneIsTrimmed(s: set<string>, p: string)
    requires TakenAll(s) == s && p in s && forall q :: q in s ==> PathOk(q) && NoNewline(q)
    ensures Trimmed(p) == p
    decreases PATH_MAX - |p|
  {
    var x := TakenFrom(s, p);
    if x != p {
      NoneIsTrimmed(s, x);
    }
  }

  lemma {:induction false} TakingKeeps(s: set<string>)
    requires forall q :: q in s ==> PathOk(q)
    ensures TakenAll(s) == s <==> forall p :: p in s ==> Reloads(p)
  {
    if TakenAll(s) == s {
      forall p | p in s ensures NoNewline(p) {
        NoNewlineLeft(s, p);
      }
      forall p | p in s ensures Reloads(p) {
        NoneIsTrimmed(s, p);
      }
    }
    if forall p :: p in s ==> Reloads(p) {
      AllTaken(s);
    }
  }

  /** A table with this entry. */
  predicate Has(sigs: SigTable.Contents, x: Sig) {
    KeyOf(x) in sigs && sigs[KeyOf(x)] == x
  }

  /** One signature that is there already gives way to the saved table only if it is in it. */
  lemma {:induction false} SeededSigs(saved: SigTable.Contents, x: Sig, after: SigTable.Contents)
    requires |saved| <= MAX_SIGS && FillsUp(map[KeyOf(x) := x], saved + map[KeyOf(x) := x], after)
    ensures after == saved <==> Has(saved, x)
  {
    var k, c := KeyOf(x), map[KeyOf(x) := x];
    assert k in c && c[k] == x;
    if k in saved && saved[k] == x {
      assert saved + c == saved;
      FillsUpAll(c, saved + c, after);
    }
  }

  lemma {:induction false} SameState(d: State, saved: State, x: Sig)
    requires |saved.sigs| <= MAX_SIGS && FillsUp(map[KeyOf(x) := x], saved.sigs + map[KeyOf(x) := x], d.sigs)
    requires d.trusted == saved.trusted && d.failClosed == saved.failClosed
    ensures d == saved <==> Has(saved.sigs, x) && d.shielded == saved.shielded
  {
    SeededSigs(saved.sigs, x, d.sigs);
  }

  lemma {:induction false} HoldingReplays(r: Report, saved: State, l: Listing, x: Sig, policy: bool, before: nat)
    requires Replays(r, saved, l, Holding(x, policy), before)
    ensures FillsUp(map[KeyOf(x) := x], saved.sigs + map[KeyOf(x) := x], r.state.sigs)
    ensures r.state.trusted == saved.trusted && r.state.shielded == TakenAll(saved.shielded)
    ensures r.state.failClosed == saved.failClosed
  {
    assert saved.trusted + map[] == saved.trusted;
    assert TakenAll(saved.shielded) + {} == TakenAll(saved.shielded);
  }

  /** Onto a module that holds one signature, whichever it is. */
  lemma {:induction false} RestoresOnto(path: Option<string>, saved: State, l: Listing, x: Sig, policy: bool,
                                        slot: string -> nat)
    requires Lists(l, saved) && Listable(saved) && |saved.sigs| <= MAX_SIGS && OneLine(path)
    ensures LoadText(Report(Holding(x, policy), 0, 0, 0), slot, Dump(path, l)).state == saved
      <==> Has(saved.sigs, x) && forall p :: p in saved.shielded ==> Reloads(p)
  {
    var r := LoadText(Report(Holding(x, policy), 0, 0, 0), slot, Dump(path, l));
    LoadOfDump(path, saved, l, Holding(x, policy), slot);
    HoldingReplays(r, saved, l, x, policy, if HeaderFits(path) then 0 else 1);
    SameState(r.state, saved, x);
    TakingKeeps(saved.shielded);
  }

  /** Onto a module just loaded a dump restores the very state it was taken from if and only if the
      seed is in it under its own name, and every protected path is on one line and ends in no
      carriage return. */
  lemma {:induction false} LoadRestores(path: Option<string>, saved: State, l: Listing, slot: string -> nat)
    requires Lists(l, saved) && Listable(saved) && |saved.sigs| <= MAX_SIGS && OneLine(path)
    ensures LoadText(Report(Fresh(), 0, 0, 0), slot, Dump(path, l)).state == saved
      <==> Has(saved.sigs, Seed()) && forall p :: p in saved.shielded ==> Reloads(p)
  {
    RestoresOnto(path, saved, l, Seed(), false, slot);
  }

  lemma {:induction false} MergedWithItself(saved: State)
    ensures saved.sigs + saved.sigs == saved.sigs && saved.trusted + saved.trusted == saved.trusted
    ensures KnownTrusts(saved, saved) == |saved.trusted|
  {
    assert saved.trusted.Keys * saved.trusted.Keys == saved.trusted.Keys;
    assert |saved.trusted| == |saved.trusted.Keys|;
  }

  lemma {:induction false} SamePaths(s: set<string>)
    ensures TakenAll(s) + s == s <==> TakenAll(s) <= s
  {
  }

  /** Onto its own state it counts every trusted hash and every line that is no absolute path as an
      error, and changes nothing if and only if every line it takes is protected already. */
  lemma {:induction false} LoadRepeats(saved: State, l: Listing, slot: string -> nat)
    requires Lists(l, saved) && Listable(saved) && |saved.sigs| <= MAX_SIGS
    ensures var r := LoadText(Report(saved, 0, 0, 0), slot, Dump(None, l));
      && r.errors == |saved.trusted| + RefusedLines(l)
      && (r.state == saved <==> TakenAll(saved.shielded) <= saved.shielded)
  {
    MergedWithItself(saved);
    LoadOfDump(None, saved, l, saved, slot);
    FillsUpAll(saved.sigs, saved.sigs, LoadText(Report(saved, 0, 0, 0), slot, Dump(None, l)).state.sigs);
    SamePaths(saved.shielded);
  }
}
