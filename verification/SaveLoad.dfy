/** avctl save and load: the /proc listings turned into a file of commands, and the file
    replayed through the /proc write handlers. */
module SaveLoad {
  import opened Options
  import opened Text
  import opened Scan
  import opened SigTable
  import opened ProcWrite
  import Seqs

  const LINE := PATH_MAX + 16

  // ----- what the kernel lists

  datatype Listing = Listing(sigs: seq<Sig>, trusted: seq<(string, string)>, shielded: seq<string>, failClosed: bool)

  function AlgoName(a: Algo): string {
    match a case MD5 => "md5" case SHA1 => "sha1" case SHA256 => "sha256"
  }

  function SigText(s: Sig): string {
    Spaced([AlgoName(s.algo), s.hex], s.name)
  }

  function TrustText(t: (string, string)): string {
    Spaced([t.0], t.1)
  }

  function SigTexts(l: seq<Sig>): (r: seq<string>)
    ensures |r| == |l| && forall i :: 0 <= i < |l| ==> r[i] == SigText(l[i])
  {
    seq(|l|, i requires 0 <= i < |l| => SigText(l[i]))
  }

  function TrustTexts(l: seq<(string, string)>): (r: seq<string>)
    ensures |r| == |l| && forall i :: 0 <= i < |l| ==> r[i] == TrustText(l[i])
  {
    seq(|l|, i requires 0 <= i < |l| => TrustText(l[i]))
  }

  function PolicyText(failClosed: bool): string {
    if failClosed then "fail-closed" else "fail-open"
  }

  // ----- save

  datatype Source = SigFile | TrustFile | ProtectFile | PolicyFile

  /** What save writes for one line it read. */
  function SaveLine(source: Source, chunk: string): string {
    var line := UpToNul(chunk);
    var bare := if line != "" && line[|line| - 1] == '\n' then line[..|line| - 1] else line;
    match source
    case SigFile =>
      var f := Fields(line, [7, 64], 127, false);
      if |f| == 3 then "sig add " + Spaced(f[..2], f[2]) + "\n" else ""
    case TrustFile =>
      var f := Fields(line, [64], 127, false);
      if |f| == 2 then "trust add " + Spaced(f[..1], f[1]) + "\n" else ""
    case ProtectFile => if bare != "" then "protect add " + bare + "\n" else ""
    case PolicyFile => if bare != "" then "policy " + bare + "\n" else ""
  }

  /** All lines of a listing; of the policy only the first. */
  function SaveFile(source: Source, text: string): string {
    if text == "" then "" else
    var k := ChunkLen(text, LINE - 1);
    SaveLine(source, text[..k]) + if source.PolicyFile? then "" else SaveFile(source, text[k..])
  }

  method SaveListing(source: Source, text: string) returns (out: string)
    ensures out == SaveFile(source, text)
  {
    out := "";
    var rest := text;
    while rest != ""
      invariant out + SaveFile(source, rest) == SaveFile(source, text)
      decreases |rest|
    {
      var k := ChunkLen(rest, LINE - 1);
      ghost var before := out;
      out := out + SaveLine(source, rest[..k]);
      if source.PolicyFile? {
        return;
      }
      Seqs.Assoc(before, SaveLine(source, rest[..k]), SaveFile(source, rest[k..]));
      rest := rest[k..];
    }
  }

  const TITLE := "# kernel-av state dump - "
  const HINT := "replay with: avctl load "

  function Header(path: string): string {
    TITLE + HINT + path
  }

  /** The whole dump; standard output gets no header. */
  function SaveText(path: Option<string>, sigs: string, trusted: string, shielded: string, policy: string): string {
    (if path.Some? then Header(path.value) + "\n" else "")
    + SaveFile(SigFile, sigs) + SaveFile(TrustFile, trusted)
    + SaveFile(ProtectFile, shielded) + SaveFile(PolicyFile, policy)
  }

  // ----- load

  datatype Report = Report(state: State, loaded: nat, skipped: nat, errors: nat)

  /** The fields that avctl itself checks before it forwards a line. */
  predicate SigFieldsOk(rest: string) {
    var f := Fields(rest, [7, 7, 511], 511, false);
    |f| < 3 || (ParseAlgo(f[1]).Some? && |f[2]| <= HEX_MAX && (|f| == 4 ==> |f[3]| <= NAME_MAX))
  }

  predicate TrustFieldsOk(rest: string) {
    var f := Fields(rest, [7, 511], 511, false);
    |f| < 2 || (|f[1]| <= HEX_MAX && (|f| == 3 ==> |f[2]| <= NAME_MAX))
  }

  function Tally(r: Report, s: Status, state: State): Report {
    if s == Done then r.(state := state, loaded := r.loaded + 1)
    else if s == EEXIST then r.(state := state, skipped := r.skipped + 1)
    else r.(state := state, errors := r.errors + 1)
  }

  function LoadSig(r: Report, slot: string -> nat, rest: string): Report {
    if !SigFieldsOk(rest) then r.(errors := r.errors + 1) else
    var w := SigWrite(r.state.sigs, slot, rest + "\n", true);
    Tally(r, w.0, r.state.(sigs := w.1))
  }

  function LoadTrust(r: Report, rest: string): Report {
    if !TrustFieldsOk(rest) then r.(errors := r.errors + 1) else
    var w := TrustWrite(r.state.trusted, rest + "\n");
    Tally(r, w.0, r.state.(trusted := w.1))
  }

  function LoadProtect(r: Report, rest: string): Report {
    var w := ProtectWrite(r.state.shielded, rest + "\n");
    Tally(r, w.0, r.state.(shielded := w.1))
  }

  function LoadPolicy(r: Report, rest: string): Report {
    var w := PolicyWrite(r.state.failClosed, rest + "\n");
    Tally(r, w.0, r.state.(failClosed := w.1))
  }

  /** What a line asks for, by its prefix. */
  datatype Order = Nothing | SigOrder(rest: string) | TrustOrder(rest: string) | ProtectOrder(rest: string)
                 | PolicyOrder(rest: string) | Unknown

  function OrderOf(line: string): Order {
    if line == "" || line[0] == '#' then Nothing
    else if "sig " <= line then SigOrder(line[4..])
    else if "trust " <= line then TrustOrder(line[6..])
    else if "protect " <= line then ProtectOrder(line[8..])
    else if "policy " <= line then PolicyOrder(line[7..])
    else Unknown
  }

  function Carry(r: Report, slot: string -> nat, order: Order): Report {
    match order
    case Nothing => r
    case SigOrder(rest) => LoadSig(r, slot, rest)
    case TrustOrder(rest) => LoadTrust(r, rest)
    case ProtectOrder(rest) => LoadProtect(r, rest)
    case PolicyOrder(rest) => LoadPolicy(r, rest)
    case Unknown => r.(errors := r.errors + 1)
  }

  function LoadLine(r: Report, slot: string -> nat, line: string): Report {
    Carry(r, slot, OrderOf(line))
  }

  function Drain(s: string): (r: string)
    ensures |r| <= |s|
  {
    if s == "" then "" else if s[0] == '\n' then s[1..] else Drain(s[1..])
  }

  /** Reads characters away through the next newline or the end. */
  method Skip(text: string) returns (rest: string)
    ensures rest == Drain(text)
  {
    rest := text;
    while rest != ""
      invariant Drain(rest) == Drain(text)
      decreases |rest|
    {
      var c := rest[0];
      rest := rest[1..];
      if c == '\n' {
        return;
      }
    }
  }

  /** One turn of the reading loop: the line read, or that it overran the buffer, and what is left. */
  datatype Turn = Overlong(rest: string) | Line(line: string, rest: string)

  function ReadLine(text: string): (t: Turn)
    requires text != ""
    ensures |t.rest| < |text|
  {
    var k := ChunkLen(text, LINE - 1);
    var s, rest := UpToNul(text[..k]), text[k..];
    if s != "" && s[|s| - 1] == '\n' then Line(s[..|s| - 1], rest)
    else if s != "" && rest != "" then Overlong(Drain(rest))
    else Line(s, rest)
  }

  function LoadText(r: Report, slot: string -> nat, text: string): Report
    decreases |text|
  {
    if text == "" then r else
    match ReadLine(text)
    case Overlong(rest) => LoadText(r.(errors := r.errors + 1), slot, rest)
    case Line(line, rest) => LoadText(LoadLine(r, slot, line), slot, rest)
  }

  method Load(start: State, slot: string -> nat, text: string) returns (r: Report, ok: bool)
    ensures r == LoadText(Report(start, 0, 0, 0), slot, text) && ok == (r.errors == 0)
  {
    r := Report(start, 0, 0, 0);
    var rest := text;
    while rest != ""
      invariant LoadText(r, slot, rest) == LoadText(Report(start, 0, 0, 0), slot, text)
      decreases |rest|
    {
      var k := ChunkLen(rest, LINE - 1);
      var s := UpToNul(rest[..k]);
      rest := rest[k..];
      if s != "" && s[|s| - 1] != '\n' && rest != "" {
        r := r.(errors := r.errors + 1);
        rest := Skip(rest);
        continue;
      }
      var line := if s != "" && s[|s| - 1] == '\n' then s[..|s| - 1] else s;
      r := LoadLine(r, slot, line);
    }
    ok := r.errors == 0;
  }

  predicate Prefixed(line: string) {
    "sig " <= line || "trust " <= line || "protect " <= line || "policy " <= line
  }

  /** An empty line or a comment counts as nothing; a line with none of the four prefixes is an error;
      neither changes the state. */
  lemma {:induction false} OtherLines(r: Report, slot: string -> nat, line: string)
    ensures line == "" || line[0] == '#' ==> LoadLine(r, slot, line) == r
    ensures line != "" && line[0] != '#' && !Prefixed(line) ==> LoadLine(r, slot, line) == r.(errors := r.errors + 1)
  {
  }

  // ----- lines

  predicate Plain(line: string) {
    NoNewline(line) && NoNul(line) && |line| + 1 < LINE
  }

  predicate AllPlain(lines: seq<string>) {
    forall i :: 0 <= i < |lines| ==> Plain(lines[i])
  }

  lemma {:induction false} FirstChunk(line: string, rest: string)
    requires Plain(line)
    ensures var text := line + "\n" + rest; var k := ChunkLen(text, LINE - 1);
      text[..k] == line + "\n" && UpToNul(text[..k]) == line + "\n" && text[k..] == rest
  {
    ChunkOfLine(line, rest, LINE - 1);
    var text := line + "\n" + rest;
    assert text[..|line| + 1] == line + "\n";
    assert NoNul(line + "\n");
  }

  /** Line by line, save turns a listing into commands. */
  lemma {:induction false} SaveUnlines(source: Source, lines: seq<string>, outs: seq<string>)
    requires !source.PolicyFile? && |outs| == |lines| && AllPlain(lines)
    requires forall i :: 0 <= i < |lines| ==> SaveLine(source, lines[i] + "\n") == outs[i] + "\n"
    ensures SaveFile(source, Unlines(lines)) == Unlines(outs)
  {
    if lines != [] {
      assert Plain(lines[0]);
      FirstChunk(lines[0], Unlines(lines[1..]));
      SaveUnlines(source, lines[1..], outs[1..]);
    }
  }

  function LoadAll(r: Report, slot: string -> nat, lines: seq<string>): Report
    decreases |lines|
  {
    if lines == [] then r else LoadAll(LoadLine(r, slot, lines[0]), slot, lines[1..])
  }

  lemma {:induction false} LoadAppend(r: Report, slot: string -> nat, a: seq<string>, b: seq<string>)
    ensures LoadAll(r, slot, a + b) == LoadAll(LoadAll(r, slot, a), slot, b)
    decreases |a|
  {
    if a == [] {
      assert a + b == b;
    } else {
      assert (a + b)[0] == a[0] && (a + b)[1..] == a[1..] + b;
      LoadAppend(LoadLine(r, slot, a[0]), slot, a[1..], b);
    }
  }

  lemma {:induction false} LoadUnlines(r: Report, slot: string -> nat, lines: seq<string>)
    requires AllPlain(lines)
    ensures LoadText(r, slot, Unlines(lines)) == LoadAll(r, slot, lines)
    decreases |lines|
  {
    if lines != [] {
      var line, rest := lines[0], Unlines(lines[1..]);
      assert Plain(line);
      PlainRead(line, rest);
      LoadUnlines(LoadLine(r, slot, line), slot, lines[1..]);
    }
  }

  lemma {:induction false} DrainLine(line: string, rest: string)
    requires NoNewline(line)
    ensures Drain(line + "\n" + rest) == rest
  {
    var s := line + "\n" + rest;
    if line != "" {
      assert s[0] == line[0] && s[1..] == line[1..] + "\n" + rest;
      DrainLine(line[1..], rest);
    } else {
      assert s[1..] == rest;
    }
  }

  lemma {:induction false} ChunkInside(line: string, rest: string, room: nat)
    requires NoNewline(line) && room <= |line|
    ensures ChunkLen(line + rest, room) == room
  {
    var text := line + rest;
    if room > 0 {
      assert text[0] == line[0] && text[1..] == line[1..] + rest;
      ChunkInside(line[1..], rest, room - 1);
    }
  }

  lemma {:induction false} OverlongChunk(line: string, rest: string)
    requires NoNewline(line) && NoNul(line) && |line| + 1 >= LINE
    ensures var text := line + "\n" + rest; var s, more := line[..LINE - 1], line[LINE - 1..] + "\n" + rest;
      ChunkLen(text, LINE - 1) == LINE - 1 && UpToNul(text[..LINE - 1]) == s && text[LINE - 1..] == more
          && Drain(more) == rest
  {
    var text := line + "\n" + rest;
    assert text == line + ("\n" + rest);
    ChunkInside(line, "\n" + rest, LINE - 1);
    assert text[..LINE - 1] == line[..LINE - 1];
    assert NoNul(line[..LINE - 1]);
    DrainLine(line[LINE - 1..], rest);
  }

  lemma {:induction false} OverlongRead(line: string, rest: string)
    requires NoNewline(line) && NoNul(line) && |line| + 1 >= LINE
    ensures ReadLine(line + "\n" + rest) == Overlong(rest)
  {
    OverlongChunk(line, rest);
    var s, more := line[..LINE - 1], line[LINE - 1..] + "\n" + rest;
    assert s[|s| - 1] != '\n' && more != "";
  }

  lemma {:induction false} PlainRead(line: string, rest: string)
    requires Plain(line)
    ensures ReadLine(line + "\n" + rest) == Line(line, rest)
  {
    FirstChunk(line, rest);
    assert (line + "\n")[..|line|] == line;
  }

  lemma {:induction false} LoadTurn(r: Report, slot: string -> nat, text: string, rest: string)
    requires text != "" && ReadLine(text) == Overlong(rest)
    ensures LoadText(r, slot, text) == LoadText(r.(errors := r.errors + 1), slot, rest)
  {
  }

  /** A line that does not fit the buffer is one error, and the next line is read from its start. */
  lemma {:induction false} LoadOverlong(r: Report, slot: string -> nat, line: string, rest: string)
    requires NoNewline(line) && NoNul(line) && |line| + 1 >= LINE
    ensures LoadText(r, slot, line + "\n" + rest) == LoadText(r.(errors := r.errors + 1), slot, rest)
  {
    OverlongRead(line, rest);
    LoadTurn(r, slot, line + "\n" + rest, rest);
  }
}
