/** What a newline in a protected path, or in the name of the dump, does to a reload. */
module SaveLoadNewlines {
  import opened Options
  import opened Text
  import opened SigTable
  import opened ProcWrite
  import opened SaveLoad
  import opened SaveLoadReplay
  import opened SaveLoadDump
  import opened SaveLoadRoundTrip

  /** Whatever the listing of protected paths says, what save makes of it only protects paths. */
  lemma {:induction false} PathsOnlyProtect(r: Report, slot: string -> nat, text: string)
    ensures var d := LoadText(r, slot, SaveFile(ProtectFile, text)).state;
      d.sigs == r.state.sigs && d.trusted == r.state.trusted && d.failClosed == r.state.failClosed
    decreases |text|
  {
    if text != "" {
      var k := ChunkLen(text, LINE - 1);
      var line, rest := SaveLine(ProtectFile, text[..k]), SaveFile(ProtectFile, text[k..]);
      if line == "" {
        assert line + rest == rest;
        PathsOnlyProtect(r, slot, text[k..]);
      } else {
        var q := BareLine(text);
        var next := OneProtects(r, slot, q, rest);
        PathsOnlyProtect(next, slot, text[k..]);
      }
    }
  }

  /** The first line that save writes for the paths: one command. */
  lemma {:induction false} BareLine(text: string) returns (q: string)
    requires text != "" && SaveLine(ProtectFile, text[..ChunkLen(text, LINE - 1)]) != ""
    ensures SaveLine(ProtectFile, text[..ChunkLen(text, LINE - 1)]) == "protect " + ("add " + q) + "\n"
    ensures NoNewline(q) && NoNul(q)
  {
    var k := ChunkLen(text, LINE - 1);
    var line := UpToNul(text[..k]);
    q := if line != "" && line[|line| - 1] == '\n' then line[..|line| - 1] else line;
    assert "protect " + ("add " + q) + "\n" == "protect add " + q + "\n";
    forall i | 0 <= i < |q| ensures q[i] != '\n' {
      assert q[i] == line[i] == text[i];
    }
  }

  lemma {:induction false} OrderProtects(r: Report, slot: string -> nat, line: string, order: string)
    requires OrderOf(line) == ProtectOrder(order)
    ensures var d := LoadLine(r, slot, line).state;
      d.sigs == r.state.sigs && d.trusted == r.state.trusted && d.failClosed == r.state.failClosed
  {
  }

  /** A line that orders a protection does nothing else, whether it fits the buffer or not. */
  lemma {:induction false} OneOrder(r: Report, slot: string -> nat, line: string, order: string, rest: string)
    returns (next: Report)
    requires NoNewline(line) && NoNul(line) && OrderOf(line) == ProtectOrder(order)
    ensures LoadText(r, slot, line + "\n" + rest) == LoadText(next, slot, rest)
    ensures next.state.sigs == r.state.sigs && next.state.trusted == r.state.trusted
    ensures next.state.failClosed == r.state.failClosed
  {
    if |line| + 1 < LINE {
      PlainLoad(r, slot, line, rest);
      OrderProtects(r, slot, line, order);
      next := LoadLine(r, slot, line);
    } else {
      LoadOverlong(r, slot, line, rest);
      next := r.(errors := r.errors + 1);
    }
  }

  lemma {:induction false} OneProtects(r: Report, slot: string -> nat, q: string, rest: string) returns (next: Report)
    requires NoNewline(q) && NoNul(q)
    ensures LoadText(r, slot, "protect " + ("add " + q) + "\n" + rest) == LoadText(next, slot, rest)
    ensures next.state.sigs == r.state.sigs && next.state.trusted == r.state.trusted
    ensures next.state.failClosed == r.state.failClosed
  {
    ProtectDispatch("add " + q);
    next := OneOrder(r, slot, "protect " + ("add " + q), "add " + q, rest);
  }

  /** A newline in a protected path makes it two commands: "/a", newline, "/b" comes back as the two
      paths "/a" and "/b". */
  lemma {:induction false} NewlineSplitsPath(a: string, b: string)
    requires a == "/a" && b == "/b"
    ensures PathOk(a + "\n" + b) && TakenAll({a + "\n" + b}) == {a, b}
  {
    var p := a + "\n" + b;
    LinesOfTwo(a, b);
    OneLineTaken(a);
    OneLineTaken(b);
    forall x ensures x in TakenAll({p}) <==> x == a || x == b {
      if x in TakenAll({p}) {
        var q :| q in LinesOf(p) && Accepted(q) && Entered(q) == x;
      }
      assert a in LinesOf(p) && b in LinesOf(p);
    }
  }

  lemma {:induction false} LinesOfTwo(a: string, b: string)
    requires NoNewline(a) && NoNewline(b)
    ensures LinesOf(a + "\n" + b) == [a, b]
  {
    var p := a + "\n" + b;
    if a == "" {
      assert p[1..] == b;
      OneLineOf(b);
    } else {
      assert p[1..] == a[1..] + "\n" + b;
      LinesOfTwo(a[1..], b);
      assert a == [a[0]] + a[1..];
    }
  }

  lemma {:induction false} SecondLineRuns(r: Report, slot: string -> nat, h: string, line: string, rest: string)
    requires Plain(h) && h != "" && h[0] == '#' && Plain(line)
    ensures LoadText(r, slot, h + "\n" + (line + "\n" + rest)) == LoadText(LoadLine(r, slot, line), slot, rest)
  {
    HeaderSkipped(r, slot, h, line + "\n" + rest);
    PlainLoad(r, slot, line, rest);
  }

  lemma {:induction false} HeaderBreaks(name: string, line: string, rest: string)
    ensures Header(name + "\n" + line) + "\n" + rest == Header(name) + "\n" + (line + "\n" + rest)
  {
  }

  /** A newline in the name of the dump file does more: what follows it in the header line is run as
      a command of its own, before the dump. */
  lemma {:induction false} HeaderRuns(name: string, line: string, l: Listing, r: Report, slot: string -> nat)
    requires NoNewline(name) && NoNul(name) && |Header(name)| + 1 < LINE && Plain(line)
    ensures LoadText(r, slot, Dump(Some(name + "\n" + line), l))
      == LoadText(LoadLine(r, slot, line), slot, Dump(None, l))
  {
    HeaderFirst(name + "\n" + line, l);
    HeaderBreaks(name, line, Dump(None, l));
    HeaderIsOneLine(name);
    SecondLineRuns(r, slot, Header(name), line, Dump(None, l));
  }
}
