/** What save writes: the listings enumerate the state, and every line of them becomes a command. */
module SaveLoadDump {
  import opened Options
  import opened Text
  import opened SigTable
  import opened ProcWrite
  import opened SaveLoad
  import opened SaveLoadReplay
  import Seqs

  // ----- listings enumerate the state

  ghost predicate DistinctKeys<K(!new)>(keys: seq<K>) {
    forall i, j :: 0 <= i < j < |keys| ==> keys[i] != keys[j]
  }

  /** The order is the hash table's; each entry is listed once. */
  ghost predicate Lists(l: Listing, st: State) {
    && DistinctKeys(SigKeys(l.sigs)) && DistinctKeys(TrustKeys(l.trusted)) && DistinctKeys(l.shielded)
    && (forall s :: s in l.sigs <==> KeyOf(s) in st.sigs && st.sigs[KeyOf(s)] == s)
    && (forall t :: t in l.trusted <==> t.0 in st.trusted && st.trusted[t.0] == t.1)
    && (forall p :: p in l.shielded <==> p in st.shielded)
    && l.failClosed == st.failClosed
  }

  /** What the write handlers let in: names and hashes that are fit to be saved, absolute paths. */
  ghost predicate Listable(st: State) {
    SigsOk(st.sigs) && TrustOk(st.trusted) && forall p :: p in st.shielded ==> PathOk(p)
  }

  /** A path that a reload takes back as it is: on one line, without a trailing carriage return. */
  predicate Reloads(p: string) {
    NoNewline(p) && Trimmed(p) == p
  }

  ghost predicate WellFormed(st: State) {
    Listable(st) && forall p :: p in st.shielded ==> Reloads(p)
  }

  // ----- the lines of the protected paths

  function AllLines(l: seq<string>): seq<string> {
    if l == [] then [] else LinesOf(l[0]) + AllLines(l[1..])
  }

  function NonEmpty(lines: seq<string>): (r: seq<string>)
    ensures |r| <= |lines|
  {
    if lines == [] then [] else (if lines[0] == "" then [] else [lines[0]]) + NonEmpty(lines[1..])
  }

  /** What save reads of the protected paths: their lines, less the empty ones. */
  function Pieces(l: seq<string>): seq<string> {
    NonEmpty(AllLines(l))
  }

  lemma {:induction false} NonEmptyIn(lines: seq<string>, q: string)
    ensures q in NonEmpty(lines) <==> q in lines && q != ""
  {
    if lines != [] {
      NonEmptyIn(lines[1..], q);
      assert lines == [lines[0]] + lines[1..];
    }
  }

  lemma {:induction false} AllLinesIn(l: seq<string>, q: string)
    ensures q in AllLines(l) <==> exists p :: p in l && q in LinesOf(p)
  {
    if l != [] {
      var rest := l[1..];
      AllLinesIn(rest, q);
      assert l == [l[0]] + rest;
      if q in LinesOf(l[0]) {
        assert l[0] in l;
      } else if p :| p in rest && q in LinesOf(p) {
        assert p in l;
      }
      if p :| p in l && q in LinesOf(p) {
        assert p == l[0] || p in rest;
      }
    }
  }

  lemma {:induction false} AllLinesText(l: seq<string>)
    ensures Unlines(AllLines(l)) == Unlines(l)
  {
    if l != [] {
      AllLinesText(l[1..]);
      UnlinesOfLines(l[0]);
      UnlinesAppend(LinesOf(l[0]), AllLines(l[1..]));
    }
  }

  lemma {:induction false} LineFits(p: string, q: string)
    requires PathOk(p) && q in LinesOf(p)
    ensures NoNewline(q) && NoNul(q) && |q| < PATH_MAX
  {
    var i :| 0 <= i < |LinesOf(p)| && LinesOf(p)[i] == q;
    LineOf(p, i);
  }

  predicate PathsFit(l: seq<string>) {
    forall i :: 0 <= i < |l| ==> PathOk(l[i])
  }

  lemma {:induction false} PieceFits(l: seq<string>, q: string)
    requires PathsFit(l) && q in AllLines(l)
    ensures NoNewline(q) && NoNul(q) && |q| < PATH_MAX
  {
    AllLinesIn(l, q);
    var p :| p in l && q in LinesOf(p);
    LineFits(p, q);
  }

  predicate LinesOk(lines: seq<string>) {
    forall i :: 0 <= i < |lines| ==> Plain(lines[i]) && (lines[i] == "" || PieceOk(lines[i]))
  }

  lemma {:induction false} LinesFit(l: seq<string>)
    requires PathsFit(l)
    ensures LinesOk(AllLines(l)) && PiecesFit(Pieces(l))
  {
    var lines := AllLines(l);
    forall i | 0 <= i < |lines| ensures Plain(lines[i]) && (lines[i] == "" || PieceOk(lines[i])) {
      PieceFits(l, lines[i]);
    }
    forall i | 0 <= i < |Pieces(l)| ensures PieceOk(Pieces(l)[i]) {
      var q := Pieces(l)[i];
      assert q in Pieces(l);
      NonEmptyIn(AllLines(l), q);
      PieceFits(l, q);
    }
  }

  lemma {:induction false} TrustMapHas(l: seq<Trust>)
    ensures forall t :: t in l ==> t.0 in TrustMap(l)
    ensures forall h :: h in TrustMap(l) ==> (h, TrustMap(l)[h]) in l
  {
    if l != [] {
      TrustMapHas(l[1..]);
      assert l == [l[0]] + l[1..];
      assert l[0] == (l[0].0, l[0].1);
    }
  }

  lemma {:induction false} TrustMapListing(l: seq<Trust>, m: Trusted)
    requires forall t :: t in l <==> t.0 in m && m[t.0] == t.1
    ensures TrustMap(l) == m
  {
    TrustMapHas(l);
    forall h | h in m ensures h in TrustMap(l) {
      assert (h, m[h]) in l;
    }
    forall h | h in TrustMap(l) ensures h in m && TrustMap(l)[h] == m[h] {
      assert (h, TrustMap(l)[h]) in l;
    }
  }

  /** Counting through a first element: what the rest shares with the grown set. */
  lemma {:induction false} CommonOne<K(!new)>(k: K, all: set<K>, present: set<K>)
    requires k in all
    ensures |all * present| == (if k in present then 1 else 0) + |(all - {k}) * (present + {k})|
    ensures |all| == 1 + |all - {k}|
  {
    assert all == (all - {k}) + {k};
    assert (all - {k}) * (present + {k}) == (all * present) - {k};
    if k in present {
      assert all * present == ((all * present) - {k}) + {k};
    }
  }

  lemma {:induction false} DistinctTail<K(!new)>(keys: seq<K>)
    requires DistinctKeys(keys) && keys != []
    ensures DistinctKeys(keys[1..]) && keys[0] !in keys[1..]
    ensures forall k :: k in keys <==> k == keys[0] || k in keys[1..]
  {
    var rest := keys[1..];
    assert keys == [keys[0]] + rest;
    assert forall i :: 0 <= i < |rest| ==> rest[i] == keys[i + 1];
  }

  lemma {:induction false} ClashesCounts<K(!new)>(keys: seq<K>, all: set<K>, present: set<K>)
    requires DistinctKeys(keys) && forall k :: k in keys <==> k in all
    ensures Clashes(keys, present) == |all * present| && |keys| == |all|
    decreases |keys|
  {
    if keys == [] {
      assert all == {};
    } else {
      DistinctTail(keys);
      ClashesCounts(keys[1..], all - {keys[0]}, present + {keys[0]});
      CommonOne(keys[0], all, present);
    }
  }

  lemma {:induction false} ListingFits(l: Listing, st: State)
    requires Lists(l, st) && Listable(st)
    ensures SigsFit(l.sigs) && TrustsFit(l.trusted) && PathsFit(l.shielded)
  {
    forall i | 0 <= i < |l.sigs| ensures SigOk(l.sigs[i]) {
      assert l.sigs[i] in l.sigs;
    }
    forall i | 0 <= i < |l.trusted| ensures TrustOkOne(l.trusted[i]) {
      assert l.trusted[i] in l.trusted;
    }
    forall i | 0 <= i < |l.shielded| ensures PathOk(l.shielded[i]) {
      assert l.shielded[i] in l.shielded;
    }
  }

  // ----- the dump, line by line

  lemma {:induction false} SigPrefix(t: string)
    requires NoNewline(t) && NoNul(t) && |t| <= 200
    ensures "sig " + ("add " + t) + "\n" == "sig add " + t + "\n"
    ensures Plain(t) && Plain("sig " + ("add " + t))
  {
  }

  lemma {:induction false} SigLineSaved(x: Sig)
    requires SigOk(x)
    ensures Plain(SigText(x)) && Plain("sig " + SigCommandText(x))
    ensures SaveLine(SigFile, SigText(x) + "\n") == "sig " + SigCommandText(x) + "\n"
  {
    SigTextPlain(x);
    SaveSigLine(x);
    SigPrefix(SigText(x));
  }

  lemma {:induction false} SavedSigs(l: seq<Sig>)
    requires SigsFit(l)
    ensures SaveFile(SigFile, Unlines(SigTexts(l))) == Unlines(SigCommands(l)) && AllPlain(SigCommands(l))
  {
    var lines, outs := SigTexts(l), SigCommands(l);
    forall i | 0 <= i < |l|
      ensures Plain(lines[i]) && Plain(outs[i]) && SaveLine(SigFile, lines[i] + "\n") == outs[i] + "\n"
    {
      SigLineSaved(l[i]);
    }
    SaveUnlines(SigFile, lines, outs);
  }

  lemma {:induction false} TrustPrefix(t: string)
    requires NoNewline(t) && NoNul(t) && |t| <= 200
    ensures "trust " + ("add " + t) + "\n" == "trust add " + t + "\n"
    ensures Plain(t) && Plain("trust " + ("add " + t))
  {
  }

  lemma {:induction false} TrustLineSaved(x: Trust)
    requires TrustOkOne(x)
    ensures Plain(TrustText(x)) && Plain("trust " + TrustCommandText(x))
    ensures SaveLine(TrustFile, TrustText(x) + "\n") == "trust " + TrustCommandText(x) + "\n"
  {
    TrustTextPlain(x);
    SaveTrustLine(x);
    TrustPrefix(TrustText(x));
  }

  lemma {:induction false} SavedTrusts(l: seq<Trust>)
    requires TrustsFit(l)
    ensures SaveFile(TrustFile, Unlines(TrustTexts(l))) == Unlines(TrustCommands(l)) && AllPlain(TrustCommands(l))
  {
    var lines, outs := TrustTexts(l), TrustCommands(l);
    forall i | 0 <= i < |l|
      ensures Plain(lines[i]) && Plain(outs[i]) && SaveLine(TrustFile, lines[i] + "\n") == outs[i] + "\n"
    {
      TrustLineSaved(l[i]);
    }
    SaveUnlines(TrustFile, lines, outs);
  }

  lemma {:induction false} PieceSaved(q: string)
    requires PieceOk(q)
    ensures Plain("protect " + ("add " + q))
    ensures SaveLine(ProtectFile, q + "\n") == "protect " + ("add " + q) + "\n"
  {
    SaveProtectLine(q);
    assert "protect " + ("add " + q) + "\n" == "protect add " + q + "\n";
  }

  lemma {:induction false} EmptySaved()
    ensures SaveLine(ProtectFile, "" + "\n") == ""
  {
    assert "" + "\n" == "\n";
  }

  lemma {:induction false} SaveFirst(line: string, rest: string)
    requires Plain(line)
    ensures SaveFile(ProtectFile, line + "\n" + rest)
      == SaveLine(ProtectFile, line + "\n") + SaveFile(ProtectFile, rest)
  {
    FirstChunk(line, rest);
  }

  lemma {:induction false} CommandFirst(q: string, rest: seq<string>)
    ensures Unlines(PathCommands([q] + rest)) == "protect " + ("add " + q) + "\n" + Unlines(PathCommands(rest))
  {
    var outs := PathCommands([q] + rest);
    assert outs[0] == "protect " + ("add " + q);
    assert outs[1..] == PathCommands(rest);
  }

  lemma {:induction false} LinesOkTail(lines: seq<string>)
    requires LinesOk(lines) && lines != []
    ensures Plain(lines[0]) && (lines[0] == "" || PieceOk(lines[0])) && LinesOk(lines[1..])
  {
  }

  /** Empty lines are left out, every other line becomes a command of its own. */
  lemma {:induction false} SavedLines(lines: seq<string>)
    requires LinesOk(lines)
    ensures SaveFile(ProtectFile, Unlines(lines)) == Unlines(PathCommands(NonEmpty(lines)))
  {
    if lines != [] {
      var q, rest := lines[0], lines[1..];
      LinesOkTail(lines);
      SaveFirst(q, Unlines(rest));
      SavedLines(rest);
      if q == "" {
        EmptySaved();
        assert NonEmpty(lines) == NonEmpty(rest);
      } else {
        PieceSaved(q);
        CommandFirst(q, NonEmpty(rest));
      }
    }
  }

  lemma {:induction false} SavedPaths(l: seq<string>)
    requires PathsFit(l)
    ensures SaveFile(ProtectFile, Unlines(l)) == Unlines(PathCommands(Pieces(l))) && AllPlain(PathCommands(Pieces(l)))
  {
    AllLinesText(l);
    LinesFit(l);
    SavedLines(AllLines(l));
    forall i | 0 <= i < |Pieces(l)| ensures Plain(PathCommands(Pieces(l))[i]) {
      PieceSaved(Pieces(l)[i]);
    }
  }

  /** What save writes when the kernel lists `l`. */
  function Dump(path: Option<string>, l: Listing): string {
    SaveText(path, Unlines(SigTexts(l.sigs)), Unlines(TrustTexts(l.trusted)), Unlines(l.shielded),
             PolicyText(l.failClosed) + "\n")
  }

  function Commands(l: Listing): seq<string> {
    SigCommands(l.sigs) + TrustCommands(l.trusted) + PathCommands(Pieces(l.shielded))
    + ["policy " + PolicyText(l.failClosed)]
  }

  lemma {:induction false} FourParts(a: seq<string>, b: seq<string>, c: seq<string>, d: string)
    ensures Unlines(a + b + c + [d]) == Unlines(a) + Unlines(b) + Unlines(c) + (d + "\n")
  {
    UnlinesAppend(a, b);
    UnlinesAppend(a + b, c);
    UnlinesAppend(a + b + c, [d]);
    assert Unlines([d]) == d + "\n" + Unlines([]);
  }

  lemma {:induction false} PlainPolicy(failClosed: bool)
    ensures Plain("policy " + PolicyText(failClosed))
  {
  }

  lemma {:induction false} DumpParts(l: Listing)
    requires SigsFit(l.sigs) && TrustsFit(l.trusted) && PathsFit(l.shielded)
    ensures Dump(None, l) == Unlines(SigCommands(l.sigs)) + Unlines(TrustCommands(l.trusted))
      + Unlines(PathCommands(Pieces(l.shielded))) + ("policy " + PolicyText(l.failClosed) + "\n")
  {
    SavedSigs(l.sigs);
    SavedTrusts(l.trusted);
    SavedPaths(l.shielded);
    SavePolicyFile(l.failClosed);
    var a := Unlines(SigCommands(l.sigs));
    assert "" + a == a;
  }

  lemma {:induction false} CommandsPlain(l: Listing)
    requires SigsFit(l.sigs) && TrustsFit(l.trusted) && PathsFit(l.shielded)
    ensures AllPlain(Commands(l))
  {
    SavedSigs(l.sigs);
    SavedTrusts(l.trusted);
    SavedPaths(l.shielded);
    PlainPolicy(l.failClosed);
  }

  lemma {:induction false} DumpBody(l: Listing)
    requires SigsFit(l.sigs) && TrustsFit(l.trusted) && PathsFit(l.shielded)
    ensures Dump(None, l) == Unlines(Commands(l)) && AllPlain(Commands(l))
  {
    DumpParts(l);
    CommandsPlain(l);
    FourParts(SigCommands(l.sigs), TrustCommands(l.trusted), PathCommands(Pieces(l.shielded)),
              "policy " + PolicyText(l.failClosed));
  }

  lemma {:induction false} HeaderFirst(path: string, l: Listing)
    ensures Dump(Some(path), l) == Header(path) + "\n" + Dump(None, l)
  {
    var h := Header(path) + "\n";
    var a, b := SaveFile(SigFile, Unlines(SigTexts(l.sigs))), SaveFile(TrustFile, Unlines(TrustTexts(l.trusted)));
    var c, d := SaveFile(ProtectFile, Unlines(l.shielded)), SaveFile(PolicyFile, PolicyText(l.failClosed) + "\n");
    Seqs.Assoc(h, a, b);
    Seqs.Assoc(h, a + b, c);
    Seqs.Assoc(h, a + b + c, d);
    assert "" + a == a;
  }
}
