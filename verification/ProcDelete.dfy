/** What a write of a delete command, or of a policy word, does. */
module ProcDelete {
  import opened Options
  import opened Text
  import opened Scan
  import opened SigTable
  import opened ProcWrite
  import opened SaveLoad
  import opened SaveLoadReplay

  lemma {:induction false} SaysDel()
    ensures Says("del", "del") && !Says("del", "add")
  {
    var d, a := "del", "add";
    assert Lower(d) == d;
    assert d[0] != a[0];
  }

  /** A word at the end of the line. */
  lemma {:induction false} LastWord(w: string, width: nat, last: nat)
    requires IsWord(w, true) && |w| <= width
    ensures Fields(w + "\n", [width], last, true) == [w]
  {
    var s := w + "\n";
    var widths := [width];
    assert s[0] == w[0];
    WordEndsLine(w, width);
    assert s[..|w|] == w && s[|w|..] == "\n";
    NoMore(last);
    assert widths[1..] == [];
    assert [w] + [] == [w];
  }

  lemma {:induction false} NoMore(last: nat)
    ensures Fields("\n", [], last, true) == []
  {
    var s := "\n";
    assert s[1..] == "";
  }

  lemma {:induction false} WordEndsLine(w: string, width: nat)
    requires |w| <= width && forall i :: 0 <= i < |w| ==> !Blank(w[i], true)
    ensures WordLen(w + "\n", width, true) == |w|
  {
    var s := w + "\n";
    if w != "" {
      assert s[0] == w[0] && s[1..] == w[1..] + "\n";
      WordEndsLine(w[1..], width - 1);
    } else {
      assert width == 0 || s[0] == '\n';
    }
  }

  // ----- signatures

  lemma {:induction false} TwoWords(a: string, b: string)
    requires IsWord(a, true) && |a| <= 7 && IsWord(b, true) && |b| <= 64
    ensures Fields(a + " " + (b + "\n"), [7, 64], 63, true) == [a, b]
  {
    var widths := [7, 64];
    OneWord(a, b + "\n", widths, 63, true);
    assert widths[1..] == [64];
    LastWord(b, 64, 63);
    assert [a] + [b] == [a, b];
  }

  lemma {:induction false} ThreeWords(cmd: string, algo: string, hex: string)
    requires IsWord(cmd, true) && |cmd| <= 7 && IsWord(algo, true) && |algo| <= 7 && IsWord(hex, true) && |hex| <= 64
    ensures Fields(cmd + " " + (algo + " " + (hex + "\n")), [7, 7, 64], 63, true) == [cmd, algo, hex]
  {
    var widths := [7, 7, 64];
    OneWord(cmd, algo + " " + (hex + "\n"), widths, 63, true);
    assert widths[1..] == [7, 64];
    TwoWords(algo, hex);
    assert [cmd] + [algo, hex] == [cmd, algo, hex];
  }

  lemma {:induction false} SigDeleteFields(algo: string, hex: string)
    requires IsWord(algo, true) && |algo| <= 7 && IsWord(hex, true) && |hex| <= 64
    ensures Fields("del " + algo + " " + hex + "\n", [7, 7, 64], 63, true) == ["del", algo, hex]
  {
    var cmd, line := "del", hex + "\n";
    assert "del " + algo + " " + hex + "\n" == cmd + " " + (algo + " " + line);
    assert IsWord(cmd, true);
    ThreeWords(cmd, algo, hex);
  }

  lemma {:induction false} SigDeleteRuns(c: SigTable.Contents, slot: string -> nat, s: Sig, text: string)
    requires SigOk(s) && text == "del " + AlgoName(s.algo) + " " + s.hex
    ensures SigWrite(c, slot, text + "\n", true) == (DelStatus(c, slot, s.algo, s.hex), Dropped(c, slot, s.algo, s.hex))
  {
    AlgoIsWord(s.algo);
    HexIsWord(s.algo, s.hex);
    PlainPayload(text, SIG_WRITE_MAX);
    SigDeleteFields(AlgoName(s.algo), s.hex);
    SigWriteRuns(c, slot, text + "\n", ["del", AlgoName(s.algo), s.hex]);
    SaysDel();
  }

  /** Deleting a signature takes out the entry of that algorithm and digest, and only that one; when
      there is none, that is the answer and nothing changes. */
  lemma {:induction false} SigDelete(c: SigTable.Contents, slot: string -> nat, s: Sig)
    requires SigTable.Canonical(c) && SigOk(s)
    ensures SigWrite(c, slot, "del " + AlgoName(s.algo) + " " + s.hex + "\n", true)
         == if KeyOf(s) in c then (Done, c - {KeyOf(s)}) else (ENOENT, c)
  {
    SigDeleteRuns(c, slot, s, "del " + AlgoName(s.algo) + " " + s.hex);
    DeleteIsExact(c, slot, s.algo, s.hex);
    assert KeyOf(s) == Key(s.algo, Lower(s.hex));
    assert KeyOf(s) !in c ==> c - {KeyOf(s)} == c;
  }

  // ----- trusted hashes

  lemma {:induction false} TrustDeleteFields(h: string)
    requires IsWord(h, true) && |h| <= 64
    ensures Fields("del " + h + "\n", [7, 64], 63, true) == ["del", h]
  {
    var cmd := "del";
    assert "del " + h + "\n" == cmd + " " + (h + "\n");
    assert IsWord(cmd, true);
    TwoWords(cmd, h);
  }

  lemma {:induction false} TrustDeleteRuns(m: Trusted, payload: string, f: seq<string>, h: string)
    requires |payload| < TRUST_WRITE_MAX && UpToNul(payload) == payload
    requires Fields(payload, [7, 64], NAME_MAX, true) == f
    requires |f| == 2 && !Says(f[0], "add") && Says(f[0], "del") && f[1] == h && HashOk(h)
    ensures TrustWrite(m, payload) == if h in m then (Done, m - {h}) else (ENOENT, m)
  {
    assert Lower(f[1]) == h;
  }

  /** Deleting a trusted hash ends the trust in it and in nothing else. */
  lemma {:induction false} TrustDelete(m: Trusted, h: string)
    requires HashOk(h)
    ensures TrustWrite(m, "del " + h + "\n") == if h in m then (Done, m - {h}) else (ENOENT, m)
  {
    HashIsWord(h);
    PlainPayload("del " + h, TRUST_WRITE_MAX);
    TrustDeleteFields(h);
    SaysDel();
    TrustDeleteRuns(m, "del " + h + "\n", ["del", h], h);
  }

  // ----- protected paths

  lemma {:induction false} AfterDel(p: string)
    ensures AfterBlanks(FromBlank("del " + p)) == AfterBlanks(p)
  {
    var s, s1, s2, s3 := "del " + p, "el " + p, "l " + p, " " + p;
    assert s[0] == 'd' && s[1..] == s1;
    assert s1[0] == 'e' && s1[1..] == s2;
    assert s2[0] == 'l' && s2[1..] == s3;
    assert s3[0] == ' ' && s3[1..] == p;
    assert FromBlank(s) == FromBlank(s1) == FromBlank(s2) == FromBlank(s3) == s3;
  }

  lemma {:induction false} ProtectDeleteParse(q: string)
    requires PieceOk(q)
    ensures var text := "del " + q + "\n";
      && |text| < PROTECT_WRITE_MAX && UpToNul(text) == text && Fields(text, [7], 0, true) == ["del"]
      && Terminated(AfterBlanks(FromBlank(text))) == Some(Entered(q))
  {
    PlainPayload("del " + q, PROTECT_WRITE_MAX);
    var cmd, widths, more := "del", [7], q + "\n";
    assert "del " + q + "\n" == cmd + " " + more;
    assert IsWord(cmd, true);
    OneWord(cmd, more, widths, 0, true);
    assert widths[1..] == [];
    assert Fields(more, [], 0, true) == [];
    assert "del " + q + "\n" == "del " + more;
    AfterDel(more);
    BlanksBefore(q);
    TerminatedLine(AfterBlanks(q));
  }

  /** Deleting a path takes its protection away, and no other's; the path is read as it is when one is
      added. */
  lemma {:induction false} ProtectDelete(s: set<string>, q: string)
    requires PieceOk(q) && Entered(q) != ""
    ensures ProtectWrite(s, "del " + q + "\n")
         == if Entered(q) in s then (Done, s - {Entered(q)}) else (ENOENT, s)
  {
    ProtectDeleteParse(q);
    EnteredBound(q);
    SaysDel();
  }

  /** One delete takes back one add. */
  lemma {:induction false} ProtectDeleteUndoesAdd(s: set<string>, q: string)
    requires PieceOk(q) && Accepted(q) && Entered(q) !in s
    ensures ProtectWrite(s, "add " + q + "\n").0 == Done
    ensures ProtectWrite(ProtectWrite(s, "add " + q + "\n").1, "del " + q + "\n") == (Done, s)
  {
    ProtectPayload(s, q);
    EnteredBound(q);
    ProtectDelete(s + {Entered(q)}, q);
    assert s + {Entered(q)} - {Entered(q)} == s;
  }

  // ----- the policy

  /** The two policies by name. */
  lemma {:induction false} PolicyByName(before: bool)
    ensures PolicyWrite(before, "fail-closed" + "\n") == (Done, true)
    ensures PolicyWrite(before, "fail-open" + "\n") == (Done, false)
  {
    PolicyPayload(before, true);
    PolicyPayload(before, false);
  }
}
