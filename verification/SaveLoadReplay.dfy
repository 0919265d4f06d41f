/** Replaying a saved state: what each saved command does, and what the whole file does. */
module SaveLoadReplay {
  import opened Options
  import opened Text
  import opened Scan
  import opened SigTable
  import opened ProcWrite
  import opened SaveLoad
  import Seqs

  // ----- one signature

  predicate SigOk(s: Sig) {
    IsStored(s) && NameOk(s.name)
  }

  lemma {:induction false} HexIsWord(algo: Algo, hex: string)
    requires ValidHex(algo, hex)
    ensures IsWord(hex, true) && IsWord(hex, false) && NoNul(hex) && NoNewline(hex) && |hex| <= HEX_MAX
  {
  }

  lemma {:induction false} AlgoIsWord(a: Algo)
    ensures var w := AlgoName(a);
      IsWord(w, true) && IsWord(w, false) && NoNul(w) && NoNewline(w) && |w| <= 7 && ParseAlgo(w) == Some(a)
  {
    var w := AlgoName(a);
    assert Lower(w) == w;
  }

  lemma {:induction false} NameIsRest(name: string)
    requires NameOk(name)
    ensures IsRest(name, false)
  {
  }

  lemma {:induction false} SigTextPlain(s: Sig)
    requires SigOk(s)
    ensures var t := SigText(s); NoNewline(t) && NoNul(t) && |t| <= 140
    ensures SigText(s) == AlgoName(s.algo) + " " + (s.hex + " " + s.name)
  {
    AlgoIsWord(s.algo);
    HexIsWord(s.algo, s.hex);
    SpacedTwo(AlgoName(s.algo), s.hex, s.name);
  }

  lemma {:induction false} SpacedOne(b: string, rest: string)
    ensures Spaced([b], rest) == b + " " + rest
  {
    var one := [b];
    assert one[1..] == [];
  }

  lemma {:induction false} SpacedTwo(a: string, b: string, rest: string)
    ensures Spaced([a, b], rest) == a + " " + (b + " " + rest)
  {
    var ab := [a, b];
    assert ab[1..] == [b];
    assert Spaced(ab, rest) == a + " " + Spaced([b], rest);
    SpacedOne(b, rest);
  }

  lemma {:induction false} SaveSigLine(s: Sig)
    requires SigOk(s)
    ensures SaveLine(SigFile, SigText(s) + "\n") == "sig add " + SigText(s) + "\n"
  {
    var a, line := AlgoName(s.algo), SigText(s) + "\n";
    SigTextPlain(s);
    AlgoIsWord(s.algo);
    HexIsWord(s.algo, s.hex);
    NameIsRest(s.name);
    assert UpToNul(line) == line;
    FieldsOfSpaced([a, s.hex], s.name, "\n", [7, 64], 127, false);
    var f := [a, s.hex, s.name];
    assert [a, s.hex] + [s.name] == f && f[..2] == [a, s.hex];
  }

  function SigCommandText(s: Sig): string {
    "add " + SigText(s)
  }

  lemma {:induction false} SigCommandFields(s: Sig, end: string, widths: seq<nat>, last: nat, kernel: bool)
    requires SigOk(s) && IsEnd(end) && last >= NAME_MAX
    requires |widths| == 3 && widths[0] >= 3 && widths[1] >= 7 && widths[2] >= HEX_MAX
    ensures Fields(SigCommandText(s) + end, widths, last, kernel) == ["add", AlgoName(s.algo), s.hex, s.name]
  {
    var cmd := "add";
    var words := [cmd, AlgoName(s.algo), s.hex];
    AlgoIsWord(s.algo);
    HexIsWord(s.algo, s.hex);
    NameIsRest(s.name);
    assert words[1..] == [AlgoName(s.algo), s.hex];
    assert IsWord(cmd, kernel);
    assert WordsFit(words, widths, kernel);
    assert Spaced(words, s.name) == cmd + " " + SigText(s);
    assert cmd + " " + SigText(s) == SigCommandText(s);
    FieldsOfSpaced(words, s.name, end, widths, last, kernel);
    assert words + [s.name] == [cmd, AlgoName(s.algo), s.hex, s.name];
  }

  /** What adding one signature answers and leaves: a duplicate and a full table change nothing. */
  function AddAnswer(c: SigTable.Contents, s: Sig): (Status, SigTable.Contents) {
    if KeyOf(s) in c then (EEXIST, c) else if |c| >= MAX_SIGS then (ENOSPC, c) else (Done, c[KeyOf(s) := s])
  }

  lemma {:induction false} CommandAdds(c: SigTable.Contents, slot: string -> nat, f: seq<string>, s: Sig)
    requires SigOk(s)
    requires |f| == 4 && Says(f[0], "add") && ParseAlgo(f[1]) == Some(s.algo) && f[2] == s.hex && f[3] == s.name
    ensures SigCommand(c, slot, f, true) == AddAnswer(c, s)
  {
    assert Stored(s.algo, s.hex, s.name) == s;
  }

  lemma {:induction false} PlainPayload(text: string, limit: nat)
    requires NoNul(text) && |text| + 1 < limit
    ensures UpToNul(text + "\n") == text + "\n" && |text + "\n"| < limit
  {
  }

  lemma {:induction false} SaysAdd()
    ensures Says("add", "add")
  {
    assert Lower("add") == "add";
  }

  /** The handler runs the command its payload converts to. */
  lemma {:induction false} SigWriteRuns(c: SigTable.Contents, slot: string -> nat, payload: string, f: seq<string>)
    requires |payload| < SIG_WRITE_MAX && UpToNul(payload) == payload
    requires Fields(payload, [7, 7, 64], NAME_MAX, true) == f
    ensures SigWrite(c, slot, payload, true) == SigCommand(c, slot, f, true)
  {
  }

  lemma {:induction false} SavedCommandAdds(c: SigTable.Contents, slot: string -> nat, s: Sig)
    requires SigOk(s)
    ensures SigCommand(c, slot, ["add", AlgoName(s.algo), s.hex, s.name], true) == AddAnswer(c, s)
  {
    AlgoIsWord(s.algo);
    SaysAdd();
    CommandAdds(c, slot, ["add", AlgoName(s.algo), s.hex, s.name], s);
  }

  lemma {:induction false} SigPayload(c: SigTable.Contents, slot: string -> nat, s: Sig)
    requires SigOk(s)
    ensures SigWrite(c, slot, SigCommandText(s) + "\n", true) == AddAnswer(c, s)
  {
    SigTextPlain(s);
    PlainPayload(SigCommandText(s), SIG_WRITE_MAX);
    SigCommandFields(s, "\n", [7, 7, 64], NAME_MAX, true);
    SigWriteRuns(c, slot, SigCommandText(s) + "\n", ["add", AlgoName(s.algo), s.hex, s.name]);
    SavedCommandAdds(c, slot, s);
  }

  lemma {:induction false} SigRest(s: Sig)
    requires SigOk(s)
    ensures SigFieldsOk(SigCommandText(s))
  {
    SigCommandFields(s, "", [7, 7, 511], 511, false);
    assert SigCommandText(s) + "" == SigCommandText(s);
    AlgoIsWord(s.algo);
    HexIsWord(s.algo, s.hex);
  }

  function Kept(c: SigTable.Contents, s: Sig): SigTable.Contents {
    AddAnswer(c, s).1
  }

  function Known(c: SigTable.Contents, s: Sig): nat {
    if KeyOf(s) in c then 1 else 0
  }

  /** A full table takes no further signature. */
  function Rejected(c: SigTable.Contents, s: Sig): nat {
    if KeyOf(s) !in c && |c| >= MAX_SIGS then 1 else 0
  }

  /** What a replay of one kind of entry amounts to, out of `total` of which `known` were there and
      `refused` could not be added. */
  function Replayed(r: Report, state: State, total: nat, known: nat, refused: nat): Report
    requires known + refused <= total
  {
    Report(state, r.loaded + total - known - refused, r.skipped + known, r.errors + refused)
  }

  lemma {:induction false} SigLine(r: Report, slot: string -> nat, s: Sig)
    requires SigOk(s)
    ensures LoadSig(r, slot, SigCommandText(s))
      == Replayed(r, r.state.(sigs := Kept(r.state.sigs, s)), 1, Known(r.state.sigs, s), Rejected(r.state.sigs, s))
  {
    SigRest(s);
    SigPayload(r.state.sigs, slot, s);
  }

  lemma {:induction false} SigDispatch(rest: string)
    ensures OrderOf("sig " + rest) == SigOrder(rest)
  {
    var line := "sig " + rest;
    assert line[0] == 's' && line[4..] == rest;
  }

  // ----- all signatures

  function SigCommands(l: seq<Sig>): (r: seq<string>)
    ensures |r| == |l| && forall i :: 0 <= i < |l| ==> r[i] == "sig " + SigCommandText(l[i])
  {
    seq(|l|, i requires 0 <= i < |l| => "sig " + SigCommandText(l[i]))
  }

  /** The table after a list of additions, and how many of them were there or found it full. */
  function Filled(c: SigTable.Contents, l: seq<Sig>): SigTable.Contents
    decreases |l|
  {
    if l == [] then c else Filled(Kept(c, l[0]), l[1..])
  }

  function Skips(c: SigTable.Contents, l: seq<Sig>): (n: nat)
    ensures n <= |l|
    decreases |l|
  {
    if l == [] then 0 else Known(c, l[0]) + Skips(Kept(c, l[0]), l[1..])
  }

  function Rejects(c: SigTable.Contents, l: seq<Sig>): (n: nat)
    decreases |l|
  {
    if l == [] then 0 else Rejected(c, l[0]) + Rejects(Kept(c, l[0]), l[1..])
  }

  lemma {:induction false} SkipsAndRejects(c: SigTable.Contents, l: seq<Sig>)
    ensures Skips(c, l) + Rejects(c, l) <= |l|
    decreases |l|
  {
    if l != [] {
      SkipsAndRejects(Kept(c, l[0]), l[1..]);
    }
  }

  /** How many of the keys, taken in order, are already there. */
  function Clashes<K>(keys: seq<K>, present: set<K>): nat {
    if keys == [] then 0
    else (if keys[0] in present then 1 else 0) + Clashes(keys[1..], present + {keys[0]})
  }

  function SigKeys(l: seq<Sig>): (r: seq<Key>)
    ensures |r| == |l| && forall i :: 0 <= i < |l| ==> r[i] == KeyOf(l[i])
  {
    seq(|l|, i requires 0 <= i < |l| => KeyOf(l[i]))
  }

  predicate SigsFit(l: seq<Sig>) {
    forall i :: 0 <= i < |l| ==> SigOk(l[i])
  }

  lemma {:induction false} ClashesBound<K>(keys: seq<K>, present: set<K>)
    ensures Clashes(keys, present) <= |keys|
  {
    if keys != [] {
      ClashesBound(keys[1..], present + {keys[0]});
    }
  }

  lemma {:induction false} JoinReplays(r: Report, a: State, b: State, k: nat, f: nat, total: nat, known: nat,
                                       refused: nat)
    requires k + f <= 1 && known + refused <= total
    ensures Replayed(Replayed(r, a, 1, k, f), b, total, known, refused)
      == Replayed(r, b, total + 1, k + known, f + refused)
  {
  }

  lemma {:induction false} FitTail(l: seq<Sig>)
    requires SigsFit(l) && l != []
    ensures SigOk(l[0]) && SigsFit(l[1..])
  {
    assert forall i :: 0 <= i < |l[1..]| ==> l[1..][i] == l[i + 1];
  }

  lemma {:induction false} LoadFirst(r: Report, slot: string -> nat, lines: seq<string>, first: Report,
                                     rest: seq<string>)
    requires lines != [] && LoadLine(r, slot, lines[0]) == first && lines[1..] == rest
    ensures LoadAll(r, slot, lines) == LoadAll(first, slot, rest)
  {
  }

  function AfterSig(r: Report, s: Sig): Report {
    var c := r.state.sigs;
    Replayed(r, r.state.(sigs := Kept(c, s)), 1, Known(c, s), Rejected(c, s))
  }

  function AfterSigs(r: Report, l: seq<Sig>): Report {
    var c := r.state.sigs;
    SkipsAndRejects(c, l);
    Replayed(r, r.state.(sigs := Filled(c, l)), |l|, Skips(c, l), Rejects(c, l))
  }

  lemma {:induction false} SigsStep(r: Report, slot: string -> nat, l: seq<Sig>)
    requires l != [] && SigOk(l[0])
    ensures LoadAll(r, slot, SigCommands(l)) == LoadAll(AfterSig(r, l[0]), slot, SigCommands(l[1..]))
  {
    SigLine(r, slot, l[0]);
    SigDispatch(SigCommandText(l[0]));
    assert SigCommands(l)[1..] == SigCommands(l[1..]);
    LoadFirst(r, slot, SigCommands(l), AfterSig(r, l[0]), SigCommands(l[1..]));
  }

  lemma {:induction false} SigsJoin(r: Report, l: seq<Sig>)
    requires l != []
    ensures AfterSigs(AfterSig(r, l[0]), l[1..]) == AfterSigs(r, l)
  {
    var c, rest := r.state.sigs, l[1..];
    var d := Kept(c, l[0]);
    SkipsAndRejects(d, rest);
    SkipsAndRejects(c, l);
    JoinReplays(r, r.state.(sigs := d), r.state.(sigs := Filled(c, l)), Known(c, l[0]), Rejected(c, l[0]),
                |rest|, Skips(d, rest), Rejects(d, rest));
  }

  /** All signature commands: each new one is added while there is room. */
  lemma {:induction false} SigsReplay(r: Report, slot: string -> nat, l: seq<Sig>)
    requires SigsFit(l)
    ensures LoadAll(r, slot, SigCommands(l)) == AfterSigs(r, l)
    decreases |l|
  {
    if l != [] {
      FitTail(l);
      SigsStep(r, slot, l);
      SigsReplay(AfterSig(r, l[0]), slot, l[1..]);
      SigsJoin(r, l);
    }
  }

  // ----- trusted hashes

  type Trust = (string, string)

  predicate TrustOkOne(t: Trust) {
    HashOk(t.0) && NameOk(t.1)
  }

  predicate TrustsFit(l: seq<Trust>) {
    forall i :: 0 <= i < |l| ==> TrustOkOne(l[i])
  }

  lemma {:induction false} HashIsWord(h: string)
    requires HashOk(h)
    ensures IsWord(h, false) && NoNewline(h)
  {
  }

  lemma {:induction false} TrustTextPlain(t: Trust)
    requires TrustOkOne(t)
    ensures var s := TrustText(t); NoNewline(s) && NoNul(s) && |s| <= 130 && s == t.0 + " " + t.1
  {
    HashIsWord(t.0);
    SpacedOne(t.0, t.1);
  }

  lemma {:induction false} SaveTrustLine(t: Trust)
    requires TrustOkOne(t)
    ensures SaveLine(TrustFile, TrustText(t) + "\n") == "trust add " + TrustText(t) + "\n"
  {
    var line := TrustText(t) + "\n";
    TrustTextPlain(t);
    HashIsWord(t.0);
    NameIsRest(t.1);
    assert UpToNul(line) == line;
    FieldsOfSpaced([t.0], t.1, "\n", [64], 127, false);
    var f := [t.0, t.1];
    assert [t.0] + [t.1] == f && f[..1] == [t.0];
  }

  function TrustCommandText(t: Trust): string {
    "add " + TrustText(t)
  }

  lemma {:induction false} TrustCommandFields(t: Trust, end: string, widths: seq<nat>, last: nat, kernel: bool)
    requires TrustOkOne(t) && IsEnd(end) && last >= NAME_MAX
    requires |widths| == 2 && widths[0] >= 3 && widths[1] >= HEX_MAX
    ensures Fields(TrustCommandText(t) + end, widths, last, kernel) == ["add", t.0, t.1]
  {
    var cmd := "add";
    var words := [cmd, t.0];
    HashIsWord(t.0);
    NameIsRest(t.1);
    assert words[1..] == [t.0];
    assert IsWord(cmd, kernel);
    assert WordsFit(words, widths, kernel);
    assert Spaced(words, t.1) == cmd + " " + TrustText(t);
    assert cmd + " " + TrustText(t) == TrustCommandText(t);
    FieldsOfSpaced(words, t.1, end, widths, last, kernel);
    assert words + [t.1] == [cmd, t.0, t.1];
  }

  /** A hash that is already trusted is refused as invalid, so replaying it counts as an error. */
  lemma {:induction false} TrustPayload(m: Trusted, t: Trust)
    requires TrustOkOne(t)
    ensures TrustWrite(m, TrustCommandText(t) + "\n") == if t.0 in m then (EINVAL, m) else (Done, m[t.0 := t.1])
  {
    TrustTextPlain(t);
    PlainPayload(TrustCommandText(t), TRUST_WRITE_MAX);
    TrustCommandFields(t, "\n", [7, 64], NAME_MAX, true);
    SaysAdd();
  }

  function KeptTrust(m: Trusted, t: Trust): Trusted {
    if t.0 in m then m else m[t.0 := t.1]
  }

  function KnownTrust(m: Trusted, t: Trust): nat {
    if t.0 in m then 1 else 0
  }

  lemma {:induction false} TrustRest(t: Trust)
    requires TrustOkOne(t)
    ensures TrustFieldsOk(TrustCommandText(t))
  {
    TrustCommandFields(t, "", [7, 511], 511, false);
    assert TrustCommandText(t) + "" == TrustCommandText(t);
  }

  lemma {:induction false} TrustDispatch(rest: string)
    ensures OrderOf("trust " + rest) == TrustOrder(rest)
  {
    var line := "trust " + rest;
    assert line[0] == 't' && line[6..] == rest;
  }

  /** A known hash is refused. */
  lemma {:induction false} TrustLine(r: Report, t: Trust)
    requires TrustOkOne(t)
    ensures LoadTrust(r, TrustCommandText(t))
      == Replayed(r, r.state.(trusted := KeptTrust(r.state.trusted, t)), 1, 0, KnownTrust(r.state.trusted, t))
  {
    TrustRest(t);
    TrustPayload(r.state.trusted, t);
  }

  function TrustCommands(l: seq<Trust>): (r: seq<string>)
    ensures |r| == |l| && forall i :: 0 <= i < |l| ==> r[i] == "trust " + TrustCommandText(l[i])
  {
    seq(|l|, i requires 0 <= i < |l| => "trust " + TrustCommandText(l[i]))
  }

  function TrustMap(l: seq<Trust>): Trusted {
    if l == [] then map[] else TrustMap(l[1..])[l[0].0 := l[0].1]
  }

  function TrustKeys(l: seq<Trust>): (r: seq<string>)
    ensures |r| == |l| && forall i :: 0 <= i < |l| ==> r[i] == l[i].0
  {
    seq(|l|, i requires 0 <= i < |l| => l[i].0)
  }

  function AfterTrust(r: Report, t: Trust): Report {
    var m := r.state.trusted;
    Replayed(r, r.state.(trusted := KeptTrust(m, t)), 1, 0, KnownTrust(m, t))
  }

  function AfterTrusts(r: Report, l: seq<Trust>): Report {
    var m := r.state.trusted;
    ClashesBound(TrustKeys(l), m.Keys);
    Replayed(r, r.state.(trusted := TrustMap(l) + m), |l|, 0, Clashes(TrustKeys(l), m.Keys))
  }

  lemma {:induction false} TrustStep(r: Report, slot: string -> nat, l: seq<Trust>)
    requires l != [] && TrustOkOne(l[0])
    ensures LoadAll(r, slot, TrustCommands(l)) == LoadAll(AfterTrust(r, l[0]), slot, TrustCommands(l[1..]))
  {
    TrustLine(r, l[0]);
    TrustDispatch(TrustCommandText(l[0]));
    assert TrustCommands(l)[1..] == TrustCommands(l[1..]);
  }

  lemma {:induction false} TrustClashOne(l: seq<Trust>, m: Trusted)
    requires l != []
    ensures Clashes(TrustKeys(l), m.Keys)
      == KnownTrust(m, l[0]) + Clashes(TrustKeys(l[1..]), KeptTrust(m, l[0]).Keys)
  {
    assert TrustKeys(l)[1..] == TrustKeys(l[1..]);
    assert KeptTrust(m, l[0]).Keys == m.Keys + {l[0].0};
  }

  lemma {:induction false} TrustJoin(r: Report, l: seq<Trust>)
    requires l != []
    ensures AfterTrusts(AfterTrust(r, l[0]), l[1..]) == AfterTrusts(r, l)
  {
    var m, rest := r.state.trusted, l[1..];
    var d := KeptTrust(m, l[0]);
    ClashesBound(TrustKeys(rest), d.Keys);
    Seqs.MergeKey(TrustMap(rest), l[0].0, l[0].1, m);
    TrustClashOne(l, m);
    JoinReplays(r, r.state.(trusted := d), r.state.(trusted := TrustMap(l) + m), 0, KnownTrust(m, l[0]),
                |rest|, 0, Clashes(TrustKeys(rest), d.Keys));
  }

  lemma {:induction false} TrustReplay(r: Report, slot: string -> nat, l: seq<Trust>)
    requires TrustsFit(l)
    ensures LoadAll(r, slot, TrustCommands(l)) == AfterTrusts(r, l)
    decreases |l|
  {
    if l == [] {
      assert TrustMap(l) + r.state.trusted == r.state.trusted;
    } else {
      TrustStep(r, slot, l);
      TrustReplay(AfterTrust(r, l[0]), slot, l[1..]);
      TrustJoin(r, l);
    }
  }

  // ----- protected paths

  /** A path as the write handler accepts it; it may hold newlines. */
  predicate PathOk(p: string) {
    p != "" && p[0] == '/' && |p| < PATH_MAX && NoNul(p)
  }

  lemma {:induction false} BlanksKeepNul(s: string)
    requires NoNul(s)
    ensures NoNul(FromBlank(s)) && NoNul(AfterBlanks(s))
  {
    if s != "" {
      BlanksKeepNul(s[1..]);
    }
  }

  /** No write, whatever its text, protects anything else; a newline within the path is let in. */
  lemma {:induction false} ProtectWriteKeeps(s: set<string>, payload: string)
    requires forall p :: p in s ==> PathOk(p)
    ensures forall p :: p in ProtectWrite(s, payload).1 ==> PathOk(p)
  {
    BlanksKeepNul(UpToNul(payload));
    BlanksKeepNul(FromBlank(UpToNul(payload)));
  }

  /** What a listing shows of it on one line: save turns each such line into a command. */
  predicate PieceOk(q: string) {
    q != "" && |q| < PATH_MAX && NoNul(q) && NoNewline(q)
  }

  /** What is left once the write handler has dropped one carriage return. */
  function Trimmed(p: string): string {
    if p != "" && p[|p| - 1] == '\r' then p[..|p| - 1] else p
  }

  /** What the write handler takes the rest of a saved line for. */
  function Entered(q: string): string {
    Trimmed(AfterBlanks(q))
  }

  /** The handler adds it only when it is absolute. */
  predicate Accepted(q: string) {
    Entered(q) != "" && Entered(q)[0] == '/'
  }

  lemma {:induction false} AfterAdd(p: string)
    ensures AfterBlanks(FromBlank("add " + p)) == AfterBlanks(p)
  {
    var s, s1, s2, s3 := "add " + p, "dd " + p, "d " + p, " " + p;
    assert s[0] == 'a' && s[1..] == s1;
    assert s1[0] == 'd' && s1[1..] == s2;
    assert s2[0] == 'd' && s2[1..] == s3;
    assert s3[0] == ' ' && s3[1..] == p;
    assert FromBlank(s) == FromBlank(s1) == FromBlank(s2) == FromBlank(s3) == s3;
    assert AfterBlanks(s3) == AfterBlanks(p);
  }

  lemma {:induction false} BlanksBefore(q: string)
    ensures AfterBlanks(q + "\n") == AfterBlanks(q) + "\n"
    ensures |AfterBlanks(q)| <= |q| && (NoNewline(q) ==> NoNewline(AfterBlanks(q)))
  {
    if q != "" {
      assert (q + "\n")[1..] == q[1..] + "\n";
      BlanksBefore(q[1..]);
    }
  }

  lemma {:induction false} TerminatedLine(p: string)
    ensures Terminated(p + "\n") == Some(Trimmed(p))
  {
    assert (p + "\n")[..|p|] == p;
  }

  lemma {:induction false} EnteredBound(q: string)
    requires PieceOk(q)
    ensures |Entered(q)| < PATH_MAX && NoNewline(Entered(q))
  {
    BlanksBefore(q);
  }

  lemma {:induction false} ProtectParse(q: string)
    requires PieceOk(q)
    ensures var text := "add " + q + "\n";
      && |text| < PROTECT_WRITE_MAX && UpToNul(text) == text && Fields(text, [7], 0, true) == ["add"]
      && Terminated(AfterBlanks(FromBlank(text))) == Some(Entered(q))
  {
    PlainPayload("add " + q, PROTECT_WRITE_MAX);
    var cmd, widths, more := "add", [7], q + "\n";
    assert "add " + q + "\n" == cmd + " " + more;
    assert IsWord(cmd, true);
    OneWord(cmd, more, widths, 0, true);
    assert widths[1..] == [];
    assert Fields(more, [], 0, true) == [];
    assert "add " + q + "\n" == "add " + more;
    AfterAdd(more);
    BlanksBefore(q);
    TerminatedLine(AfterBlanks(q));
  }

  lemma {:induction false} ProtectAdds(s: set<string>, text: string, cmd: string, path: string)
    requires |text| < PROTECT_WRITE_MAX && UpToNul(text) == text && Fields(text, [7], 0, true) == [cmd]
    requires Terminated(AfterBlanks(FromBlank(text))) == Some(path) && |path| < PATH_MAX
    requires Says(cmd, "add")
    ensures ProtectWrite(s, text) == ProtectAdd(s, path)
  {
  }

  /** The handler adds what follows the blanks, without a trailing carriage return. */
  lemma {:induction false} ProtectPayload(s: set<string>, q: string)
    requires PieceOk(q)
    ensures ProtectWrite(s, "add " + q + "\n") == ProtectAdd(s, Entered(q))
  {
    ProtectParse(q);
    SaysAdd();
    EnteredBound(q);
    ProtectAdds(s, "add " + q + "\n", "add", Entered(q));
  }

  function KeptPath(s: set<string>, q: string): set<string> {
    if Accepted(q) then s + {Entered(q)} else s
  }

  function KnownPath(s: set<string>, q: string): nat {
    if Accepted(q) && Entered(q) in s then 1 else 0
  }

  function RefusedPath(q: string): nat {
    if Accepted(q) then 0 else 1
  }

  lemma {:induction false} PathAdded(s: set<string>, q: string)
    requires |Entered(q)| < PATH_MAX
    ensures ProtectAdd(s, Entered(q))
      == (if !Accepted(q) then EINVAL else if Entered(q) in s then EEXIST else Done, KeptPath(s, q))
  {
    if Entered(q) in s {
      assert s + {Entered(q)} == s;
    }
  }

  /** The report of a line whose handler adds this path. */
  lemma {:induction false} ProtectReport(r: Report, rest: string, q: string)
    requires ProtectWrite(r.state.shielded, rest + "\n") == ProtectAdd(r.state.shielded, Entered(q))
    requires |Entered(q)| < PATH_MAX
    ensures LoadProtect(r, rest) == Replayed(r, r.state.(shielded := KeptPath(r.state.shielded, q)), 1,
                                             KnownPath(r.state.shielded, q), RefusedPath(q))
  {
    PathAdded(r.state.shielded, q);
  }

  lemma {:induction false} ProtectLine(r: Report, q: string)
    requires PieceOk(q)
    ensures LoadProtect(r, "add " + q) == Replayed(r, r.state.(shielded := KeptPath(r.state.shielded, q)), 1,
                                                   KnownPath(r.state.shielded, q), RefusedPath(q))
  {
    ProtectPayload(r.state.shielded, q);
    EnteredBound(q);
    ProtectReport(r, "add " + q, q);
  }

  lemma {:induction false} ProtectDispatch(rest: string)
    ensures OrderOf("protect " + rest) == ProtectOrder(rest)
  {
    var line := "protect " + rest;
    assert line[0] == 'p' && line[1] == 'r' && line[8..] == rest;
  }

  lemma {:induction false} SaveProtectLine(q: string)
    requires PieceOk(q)
    ensures SaveLine(ProtectFile, q + "\n") == "protect add " + q + "\n"
  {
    assert NoNul(q + "\n") && (q + "\n")[..|q|] == q;
  }

  predicate PiecesFit(l: seq<string>) {
    forall i :: 0 <= i < |l| ==> PieceOk(l[i])
  }

  function PathCommands(l: seq<string>): (r: seq<string>)
    ensures |r| == |l| && forall i :: 0 <= i < |l| ==> r[i] == "protect " + ("add " + l[i])
  {
    seq(|l|, i requires 0 <= i < |l| => "protect " + ("add " + l[i]))
  }

  /** The paths that are added, as the write handler takes them. */
  function EnteredAll(l: seq<string>): (r: seq<string>)
    ensures |r| <= |l|
  {
    if l == [] then [] else (if Accepted(l[0]) then [Entered(l[0])] else []) + EnteredAll(l[1..])
  }

  function PathSet(l: seq<string>): set<string> {
    if l == [] then {} else KeptPath(PathSet(l[1..]), l[0])
  }

  function AfterPath(r: Report, q: string): Report {
    var s := r.state.shielded;
    Replayed(r, r.state.(shielded := KeptPath(s, q)), 1, KnownPath(s, q), RefusedPath(q))
  }

  function AfterPaths(r: Report, l: seq<string>): Report {
    var s := r.state.shielded;
    ClashesBound(EnteredAll(l), s);
    Replayed(r, r.state.(shielded := PathSet(l) + s), |l|, Clashes(EnteredAll(l), s), |l| - |EnteredAll(l)|)
  }

  lemma {:induction false} FirstLine(r: Report, slot: string -> nat, lines: seq<string>, line: string,
                                     rest: seq<string>, next: Report)
    requires lines != [] && lines[0] == line && lines[1..] == rest && LoadLine(r, slot, line) == next
    ensures LoadAll(r, slot, lines) == LoadAll(next, slot, rest)
  {
  }

  lemma {:induction false} PathLine(r: Report, slot: string -> nat, q: string)
    requires PieceOk(q)
    ensures LoadLine(r, slot, "protect " + ("add " + q)) == AfterPath(r, q)
  {
    ProtectLine(r, q);
    ProtectDispatch("add " + q);
  }

  lemma {:induction false} PathStep(r: Report, slot: string -> nat, l: seq<string>)
    requires l != [] && PieceOk(l[0])
    ensures LoadAll(r, slot, PathCommands(l)) == LoadAll(AfterPath(r, l[0]), slot, PathCommands(l[1..]))
  {
    PathLine(r, slot, l[0]);
    assert PathCommands(l)[1..] == PathCommands(l[1..]);
    assert PathCommands(l)[0] == "protect " + ("add " + l[0]);
    FirstLine(r, slot, PathCommands(l), "protect " + ("add " + l[0]), PathCommands(l[1..]), AfterPath(r, l[0]));
  }

  lemma {:induction false} PathClashOne(l: seq<string>, s: set<string>)
    requires l != []
    ensures Clashes(EnteredAll(l), s) == KnownPath(s, l[0]) + Clashes(EnteredAll(l[1..]), KeptPath(s, l[0]))
    ensures |l| - |EnteredAll(l)| == RefusedPath(l[0]) + |l[1..]| - |EnteredAll(l[1..])|
  {
    var e := EnteredAll(l);
    if Accepted(l[0]) {
      assert e[1..] == EnteredAll(l[1..]);
    } else {
      assert e == EnteredAll(l[1..]);
    }
  }

  lemma {:induction false} PathsJoin(r: Report, l: seq<string>)
    requires l != []
    ensures AfterPaths(AfterPath(r, l[0]), l[1..]) == AfterPaths(r, l)
  {
    var s, rest, q := r.state.shielded, l[1..], l[0];
    var d := KeptPath(s, q);
    assert PathSet(rest) + d == PathSet(l) + s;
    ClashesBound(EnteredAll(rest), d);
    PathClashOne(l, s);
    JoinReplays(r, r.state.(shielded := d), r.state.(shielded := PathSet(l) + s), KnownPath(s, q), RefusedPath(q),
                |rest|, Clashes(EnteredAll(rest), d), |rest| - |EnteredAll(rest)|);
  }

  /** All protect commands: the absolute ones are added, the others refused. */
  lemma {:induction false} PathsReplay(r: Report, slot: string -> nat, l: seq<string>)
    requires PiecesFit(l)
    ensures LoadAll(r, slot, PathCommands(l)) == AfterPaths(r, l)
    decreases |l|
  {
    if l == [] {
      assert PathSet(l) + r.state.shielded == r.state.shielded;
    } else {
      PathStep(r, slot, l);
      PathsReplay(AfterPath(r, l[0]), slot, l[1..]);
      PathsJoin(r, l);
    }
  }

  // ----- policy

  lemma {:induction false} PolicyWords()
    ensures Says("fail-open", "fail-open") && Says("fail-closed", "fail-closed") && !Says("fail-closed", "fail-open")
  {
    var open, closed := "fail-open", "fail-closed";
    assert Lower(open) == open;
    assert Lower(closed) == closed;
    assert |open| != |closed|;
  }

  lemma {:induction false} PolicyShort(failClosed: bool)
    ensures var t := PolicyText(failClosed); NoNul(t) && NoNewline(t) && 0 < |t| <= 11 && Trimmed(t) == t
  {
  }

  lemma {:induction false} PolicyPayload(before: bool, failClosed: bool)
    ensures PolicyWrite(before, PolicyText(failClosed) + "\n") == (Done, failClosed)
  {
    PolicyShort(failClosed);
    PlainPayload(PolicyText(failClosed), POLICY_WRITE_MAX);
    TerminatedLine(PolicyText(failClosed));
    PolicyWords();
  }

  lemma {:induction false} PolicyDispatch(rest: string)
    ensures OrderOf("policy " + rest) == PolicyOrder(rest)
  {
    var line := "policy " + rest;
    assert line[0] == 'p' && line[1] == 'o' && line[7..] == rest;
  }

  lemma {:induction false} PolicyLine(r: Report, slot: string -> nat, failClosed: bool)
    ensures LoadLine(r, slot, "policy " + PolicyText(failClosed))
      == Replayed(r, r.state.(failClosed := failClosed), 1, 0, 0)
  {
    PolicyDispatch(PolicyText(failClosed));
    PolicyPayload(r.state.failClosed, failClosed);
  }

  lemma {:induction false} SavePolicyFile(failClosed: bool)
    ensures SaveFile(PolicyFile, PolicyText(failClosed) + "\n") == "policy " + PolicyText(failClosed) + "\n"
  {
    var line := PolicyText(failClosed);
    assert Plain(line);
    FirstChunk(line, "");
    assert line + "\n" + "" == line + "\n";
    assert (line + "\n")[..|line|] == line;
  }
}
