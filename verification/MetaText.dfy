/** The quarantine sidecar: a text file of KEY=value lines, written and read back. */
module MetaText {
  import opened Options
  import opened Text

  const RULE_MAX := 63
  const SHA_MAX := 64
  const LINE_BUF := PATH_MAX + 64
  const U32 := 0x1_0000_0000
  const U64 := 0x1_0000_0000_0000_0000
  const I64 := 0x8000_0000_0000_0000
  const DEFAULT_MODE := 384

  datatype Meta = Meta(path: string, mode: nat, uid: nat, gid: nat, time: int, rule: string, sha: string)

  // ----- numbers

  function DigitChar(d: nat): char
    requires d < 10
  {
    (d + '0' as int) as char
  }

  predicate IsDigit(c: char, base: nat)
    requires base <= 10
  {
    '0' <= c && c as int < '0' as int + base
  }

  function DigitOf(c: char): nat
    requires '0' <= c
  {
    c as int - '0' as int
  }

  predicate IsBase(base: nat) {
    base == 8 || base == 10
  }

  function DivMod(n: nat, base: nat): (d: (nat, nat))
    requires IsBase(base)
    ensures d.0 * base + d.1 == n && d.1 < base && (base <= n ==> d.0 < n)
  {
    if base == 8 then (n / 8, n % 8) else (n / 10, n % 10)
  }

  function Digits(n: nat, base: nat): (s: string)
    requires IsBase(base)
    ensures s != "" && forall i :: 0 <= i < |s| ==> IsDigit(s[i], base)
  {
    if n < base then [DigitChar(n)] else
    var d := DivMod(n, base);
    Digits(d.0, base) + [DigitChar(d.1)]
  }

  function ValueOf(s: string, base: nat): nat
    requires base <= 10 && forall i :: 0 <= i < |s| ==> IsDigit(s[i], base)
  {
    if s == "" then 0 else assert IsDigit(s[|s| - 1], base); ValueOf(s[..|s| - 1], base) * base + DigitOf(s[|s| - 1])
  }

  lemma {:induction false} ValueSnoc(s: string, c: char, base: nat)
    requires base <= 10 && IsDigit(c, base) && forall i :: 0 <= i < |s| ==> IsDigit(s[i], base)
    ensures ValueOf(s + [c], base) == ValueOf(s, base) * base + DigitOf(c)
  {
    assert (s + [c])[..|s + [c]| - 1] == s;
  }

  lemma {:induction false} LastDigit(n: nat, base: nat) returns (q: nat, r: nat)
    requires IsBase(base) && base <= n
    ensures q < n && r < base && q * base + r == n
    ensures Digits(n, base) == Digits(q, base) + [DigitChar(r)]
  {
    q, r := DivMod(n, base).0, DivMod(n, base).1;
  }

  lemma {:induction false} DigitsRoundTrip(n: nat, base: nat)
    requires IsBase(base)
    ensures ValueOf(Digits(n, base), base) == n
  {
    if n < base {
      assert Digits(n, base) == "" + [DigitChar(n)];
      ValueSnoc("", DigitChar(n), base);
    } else {
      var q, r := LastDigit(n, base);
      DigitsRoundTrip(q, base);
      ValueSnoc(Digits(q, base), DigitChar(r), base);
    }
  }

  /** How many leading characters are digits. */
  function DigitRun(s: string, base: nat): (k: nat)
    requires base <= 10
    ensures k <= |s| && forall i :: 0 <= i < k ==> IsDigit(s[i], base)
    ensures k < |s| ==> !IsDigit(s[k], base)
  {
    if s == "" || !IsDigit(s[0], base) then 0 else 1 + DigitRun(s[1..], base)
  }

  /** The C library's strtoul: blanks, an optional sign, then digits; negation is modulo 2^64
      and an overflow saturates. */
  function StrToUL(text: string, base: nat): nat
    requires base <= 10
  {
    var s := SkipSpace(text);
    var signed := s != "" && (s[0] == '-' || s[0] == '+');
    var body := if signed then s[1..] else s;
    var v := ValueOf(body[..DigitRun(body, base)], base);
    if v >= U64 then U64 - 1 else if signed && s[0] == '-' then (U64 - v) % U64 else v
  }

  /** The C library's strtoll: as above, saturating at both ends of the signed range. */
  function StrToLL(text: string): int {
    var s := SkipSpace(text);
    var signed := s != "" && (s[0] == '-' || s[0] == '+');
    var body := if signed then s[1..] else s;
    var v: int := ValueOf(body[..DigitRun(body, 10)], 10);
    if signed && s[0] == '-' then (if v > I64 then -I64 else -v) else if v >= I64 then I64 - 1 else v
  }

  function PrintInt(x: int): string {
    if x >= 0 then Digits(x, 10) else "-" + Digits(-x, 10)
  }

  /** A 32-bit identifier printed through a signed conversion. */
  function PrintSigned(u: nat): string
    requires u < U32
  {
    PrintInt(if u < U32 / 2 then u else u - U32)
  }

  lemma {:induction false} AllDigits(s: string, base: nat)
    requires base <= 10 && forall i :: 0 <= i < |s| ==> IsDigit(s[i], base)
    ensures DigitRun(s, base) == |s|
  {
  }

  lemma {:induction false} ParseDigits(n: nat, base: nat)
    requires IsBase(base) && n < U64
    ensures StrToUL(Digits(n, base), base) == n
  {
    var s := Digits(n, base);
    assert IsDigit(s[0], base);
    AllDigits(s, base);
    assert s[..|s|] == s;
    DigitsRoundTrip(n, base);
  }

  lemma {:induction false} ParseNegative(d: nat, s: string)
    requires 0 < d && s == PrintInt(0 - d)
    ensures SkipSpace(s) == s && s[0] == '-'
    ensures ValueOf(s[1..][..DigitRun(s[1..], 10)], 10) == d
  {
    var body := Digits(d, 10);
    assert s == "-" + body;
    assert s[1..] == body;
    AllDigits(body, 10);
    assert body[..|body|] == body;
    DigitsRoundTrip(d, 10);
  }

  lemma {:induction false} TwosComplement(u: nat)
    requires 0 < u < U32
    ensures (U64 - (U32 - u)) % U64 % U32 == u
  {
    assert (U64 - (U32 - u)) % U64 == U64 - (U32 - u);
    assert U64 - (U32 - u) == U32 * (U32 - 1) + u;
  }

  lemma {:induction false} ReadsNegative(d: nat)
    requires 0 < d < U32
    ensures StrToUL(PrintInt(0 - d), 10) == (U64 - d) % U64
  {
    ParseNegative(d, PrintInt(0 - d));
  }

  /** Printing an identifier as signed and reading it as unsigned gives it back, on all of 32 bits. */
  lemma {:induction false} SignedRoundTrip(u: nat)
    requires u < U32
    ensures StrToUL(PrintSigned(u), 10) % U32 == u
  {
    if u < U32 / 2 {
      ParseDigits(u, 10);
    } else {
      ReadsNegative(U32 - u);
      TwosComplement(u);
    }
  }

  lemma {:induction false} TimeRoundTrip(t: int)
    requires -I64 <= t < I64
    ensures StrToLL(PrintInt(t)) == t
  {
    if t < 0 {
      ParseNegative(-t, PrintInt(t));
    } else {
      var s := Digits(t, 10);
      assert IsDigit(s[0], 10);
      AllDigits(s, 10);
      assert s[..|s|] == s;
      DigitsRoundTrip(t, 10);
    }
  }

  // ----- lines

  /** A line the reader takes in whole. */
  predicate Plain(s: string) {
    NoNewline(s) && NoNul(s) && |s| + 1 < LINE_BUF
  }

  /** What the reader compares: the C string in the buffer, its final newline removed. */
  function LineOf(chunk: string): string {
    var s := UpToNul(chunk);
    if s != "" && s[|s| - 1] == '\n' then s[..|s| - 1] else s
  }

  function LinesIn(text: string): (lines: seq<string>) {
    if text == "" then [] else
    var k := ChunkLen(text, LINE_BUF - 1);
    [LineOf(text[..k])] + LinesIn(text[k..])
  }

  lemma {:induction false} LinesOfUnlines(lines: seq<string>)
    requires forall i :: 0 <= i < |lines| ==> Plain(lines[i])
    ensures LinesIn(Unlines(lines)) == lines
  {
    if lines != [] {
      var line, rest := lines[0], Unlines(lines[1..]);
      var text := line + "\n" + rest;
      assert Plain(line);
      ChunkOfLine(line, rest, LINE_BUF - 1);
      var chunk := text[..|line| + 1];
      assert chunk == line + "\n";
      assert NoNul(chunk);
      assert chunk[..|line|] == line;
      assert text[|line| + 1..] == rest;
      LinesOfUnlines(lines[1..]);
    }
  }

  lemma {:induction false} LinesHaveNoNewline(text: string)
    ensures forall i :: 0 <= i < |LinesIn(text)| ==> NoNewline(LinesIn(text)[i])
  {
    if text != "" {
      var k := ChunkLen(text, LINE_BUF - 1);
      assert UpToNul(text[..k]) <= text[..k];
      assert NoNewline(LineOf(text[..k]));
      LinesHaveNoNewline(text[k..]);
    }
  }

  // ----- writing

  const PATH_KEY := "ORIGINAL_PATH="
  const MODE_KEY := "ORIGINAL_MODE="
  const UID_KEY := "ORIGINAL_UID="
  const GID_KEY := "ORIGINAL_GID="
  const TIME_KEY := "TIMESTAMP="
  const RULE_KEY := "RULE_NAME="
  const SHA_KEY := "SHA256="

  predicate IsKey(key: string) {
    key in {PATH_KEY, MODE_KEY, UID_KEY, GID_KEY, TIME_KEY, RULE_KEY, SHA_KEY}
  }

  predicate Fields(m: Meta) {
    && m.mode < 4096 && m.uid < U32 && m.gid < U32 && -I64 <= m.time < I64
    && NoNewline(m.rule) && NoNul(m.rule) && |m.rule| <= RULE_MAX
    && NoNewline(m.sha) && NoNul(m.sha) && |m.sha| <= SHA_MAX
  }

  function SixLines(mode: string, uid: string, gid: string, time: string, rule: string, sha: string): seq<string> {
    [MODE_KEY + mode, UID_KEY + uid, GID_KEY + gid, TIME_KEY + time, RULE_KEY + rule, SHA_KEY + sha]
  }

  /** The record's lines in the order written, before the path, which comes last. */
  function HeadLines(m: Meta): seq<string>
    requires m.uid < U32 && m.gid < U32
  {
    SixLines(Digits(m.mode, 8), PrintSigned(m.uid), PrintSigned(m.gid), PrintInt(m.time), m.rule, m.sha)
  }

  function PrintMeta(m: Meta): string
    requires m.uid < U32 && m.gid < U32
  {
    Unlines(HeadLines(m)) + PATH_KEY + m.path + "\n"
  }

  // ----- reading

  const START := Meta("", DEFAULT_MODE, 0, 0, 0, "", "")

  function ModeOf(value: string): nat {
    StrToUL(value, 8) % U32
  }

  function IdOf(value: string): nat {
    StrToUL(value, 10) % U32
  }

  /** One line of the sidecar; a later line overrides an earlier one, an unknown one is ignored. */
  function Apply(m: Meta, line: string): Meta {
    if PATH_KEY <= line then m.(path := Cut(line[14..], PATH_MAX - 1))
    else if MODE_KEY <= line then m.(mode := ModeOf(line[14..]))
    else if UID_KEY <= line then m.(uid := IdOf(line[13..]))
    else if GID_KEY <= line then m.(gid := IdOf(line[13..]))
    else if TIME_KEY <= line then m.(time := StrToLL(line[10..]))
    else if RULE_KEY <= line then m.(rule := Cut(line[10..], RULE_MAX))
    else if SHA_KEY <= line then m.(sha := Cut(line[7..], SHA_MAX))
    else m
  }

  function ApplyAll(m: Meta, lines: seq<string>): Meta
    decreases |lines|
  {
    if lines == [] then m else ApplyAll(Apply(m, lines[0]), lines[1..])
  }

  function Checked(m: Meta): Option<Meta> {
    if m.path == "" then None else Some(m)
  }

  function MetaOf(text: string): Option<Meta> {
    Checked(ApplyAll(START, LinesIn(text)))
  }

  method ReadMeta(text: string) returns (r: Option<Meta>)
    ensures r == MetaOf(text)
  {
    var m := START;
    var rest := text;
    while rest != ""
      invariant ApplyAll(m, LinesIn(rest)) == ApplyAll(START, LinesIn(text))
      decreases |rest|
    {
      var k := ChunkLen(rest, LINE_BUF - 1);
      var line := LineOf(rest[..k]);
      rest := rest[k..];
      m := Apply(m, line);
    }
    r := Checked(m);
  }

  // ----- what the record means

  lemma {:induction false} ApplyAppend(m: Meta, a: seq<string>, b: seq<string>)
    ensures ApplyAll(m, a + b) == ApplyAll(ApplyAll(m, a), b)
    decreases |a|
  {
    if a == [] {
      assert a + b == b;
    } else {
      assert (a + b)[0] == a[0] && (a + b)[1..] == a[1..] + b;
      ApplyAppend(Apply(m, a[0]), a[1..], b);
    }
  }

  /** No key is a prefix of a line that starts with another. */
  lemma {:induction false} KeysDiffer(key: string, other: string, value: string)
    requires IsKey(key) && IsKey(other) && other != key
    ensures !(other <= key + value) && key <= key + value && (key + value)[|key|..] == value
  {
    var line := key + value;
    assert line[0] == key[0] && line[5] == key[5];
    if |key| > 9 && |other| > 9 {
      assert line[9] == key[9];
    }
  }

  /** The field a key sets. */
  function Put(m: Meta, key: string, value: string): Meta {
    if key == PATH_KEY then m.(path := Cut(value, PATH_MAX - 1))
    else if key == MODE_KEY then m.(mode := ModeOf(value))
    else if key == UID_KEY then m.(uid := IdOf(value))
    else if key == GID_KEY then m.(gid := IdOf(value))
    else if key == TIME_KEY then m.(time := StrToLL(value))
    else if key == RULE_KEY then m.(rule := Cut(value, RULE_MAX))
    else m.(sha := Cut(value, SHA_MAX))
  }

  lemma {:induction false} ApplyKey(m: Meta, key: string, value: string)
    requires IsKey(key)
    ensures Apply(m, key + value) == Put(m, key, value)
  {
    assert forall other :: IsKey(other) && other != key ==> !(other <= key + value) by {
      forall other | IsKey(other) && other != key ensures !(other <= key + value) {
        KeysDiffer(key, other, value);
      }
    }
    assert IsKey(PATH_KEY) && IsKey(MODE_KEY) && IsKey(UID_KEY) && IsKey(GID_KEY);
    assert IsKey(TIME_KEY) && IsKey(RULE_KEY) && IsKey(SHA_KEY);
    KeysDiffer(key, if key == PATH_KEY then MODE_KEY else PATH_KEY, value);
  }

  lemma {:induction false} KeyLine(m: Meta, lines: seq<string>, key: string, value: string)
    requires IsKey(key) && lines != [] && lines[0] == key + value
    ensures ApplyAll(m, lines) == ApplyAll(Put(m, key, value), lines[1..])
  {
    ApplyKey(m, key, value);
  }

  lemma {:induction false} ModeRestored(mode: nat)
    requires mode < 4096
    ensures ModeOf(Digits(mode, 8)) == mode
  {
    ParseDigits(mode, 8);
  }

  lemma {:induction false} IdRestored(id: nat)
    requires id < U32
    ensures IdOf(PrintSigned(id)) == id
  {
    SignedRoundTrip(id);
  }

  lemma {:induction false} SixRestored(m: Meta, a: string, b: string, c: string, d: string)
    requires ModeOf(a) == m.mode && IdOf(b) == m.uid && IdOf(c) == m.gid && StrToLL(d) == m.time
    requires |m.rule| <= RULE_MAX && |m.sha| <= SHA_MAX
    ensures ApplyAll(START, SixLines(a, b, c, d, m.rule, m.sha)) == m.(path := "")
  {
    var s := SixLines(a, b, c, d, m.rule, m.sha);
    var m1 := START.(mode := m.mode);
    var m2 := m1.(uid := m.uid);
    var m3 := m2.(gid := m.gid);
    var m4 := m3.(time := m.time);
    var m5 := m4.(rule := m.rule);
    KeyLine(START, s, MODE_KEY, a);
    KeyLine(m1, s[1..], UID_KEY, b);
    KeyLine(m2, s[2..], GID_KEY, c);
    KeyLine(m3, s[3..], TIME_KEY, d);
    KeyLine(m4, s[4..], RULE_KEY, m.rule);
    KeyLine(m5, s[5..], SHA_KEY, m.sha);
  }

  lemma {:induction false} HeadNumbers(m: Meta) returns (a: string, b: string, c: string, d: string)
    requires Fields(m)
    ensures HeadLines(m) == SixLines(a, b, c, d, m.rule, m.sha)
    ensures ModeOf(a) == m.mode && IdOf(b) == m.uid && IdOf(c) == m.gid && StrToLL(d) == m.time
  {
    a, b, c, d := Digits(m.mode, 8), PrintSigned(m.uid), PrintSigned(m.gid), PrintInt(m.time);
    ModeRestored(m.mode);
    IdRestored(m.uid);
    IdRestored(m.gid);
    TimeRoundTrip(m.time);
  }

  lemma {:induction false} HeadRestored(m: Meta)
    requires Fields(m)
    ensures ApplyAll(START, HeadLines(m)) == m.(path := "")
  {
    var a, b, c, d := HeadNumbers(m);
    SixRestored(m, a, b, c, d);
  }

  /** Each digit at least halves the number. */
  lemma {:induction false} DigitsShort(n: nat, base: nat, k: nat, bound: nat)
    requires IsBase(base) && bound == Pow2(k) && n < 2 * bound
    ensures |Digits(n, base)| <= k + 1
    decreases k
  {
    if n >= base {
      var q, r := LastDigit(n, base);
      Halves(q, r, base, n);
      DigitsShort(q, base, k - 1, Pow2(k - 1));
    }
  }

  lemma {:induction false} Halves(q: nat, r: nat, base: nat, n: nat)
    requires base >= 2 && q * base + r == n
    ensures 2 * q <= n
  {
  }

  function Pow2(k: nat): nat {
    if k == 0 then 1 else 2 * Pow2(k - 1)
  }

  lemma {:induction false} Pow2Adds(a: nat, b: nat)
    ensures Pow2(a + b) == Pow2(a) * Pow2(b)
    decreases a
  {
    if a > 0 {
      Pow2Adds(a - 1, b);
      assert a + b - 1 == a - 1 + b;
    }
  }

  lemma {:induction false} PowersOfTwo()
    ensures Pow2(32) == U32 && Pow2(64) == U64
  {
    assert Pow2(1) == 2;
    Pow2Adds(1, 1);
    Pow2Adds(2, 2);
    Pow2Adds(4, 4);
    Pow2Adds(8, 8);
    Pow2Adds(16, 16);
    Pow2Adds(32, 32);
  }

  lemma {:induction false} NumbersAreShort(n: nat, base: nat)
    requires IsBase(base) && n <= I64
    ensures |Digits(n, base)| <= 65
  {
    PowersOfTwo();
    DigitsShort(n, base, 64, U64);
  }

  lemma {:induction false} PlainText(key: string, value: string)
    requires IsKey(key) && NoNewline(value) && NoNul(value) && |value| <= 100
    ensures Plain(key + value)
  {
  }

  lemma {:induction false} PlainNumber(key: string, x: int)
    requires IsKey(key) && -I64 <= x < I64
    ensures Plain(key + PrintInt(x))
  {
    NumbersAreShort(if x >= 0 then x else -x, 10);
    PlainText(key, PrintInt(x));
  }

  lemma {:induction false} PlainMode(mode: nat)
    requires mode < 4096
    ensures Plain(MODE_KEY + Digits(mode, 8))
  {
    NumbersAreShort(mode, 8);
    PlainText(MODE_KEY, Digits(mode, 8));
  }

  lemma {:induction false} PlainHead(m: Meta)
    requires Fields(m)
    ensures forall i :: 0 <= i < 6 ==> Plain(HeadLines(m)[i])
  {
    PlainMode(m.mode);
    PlainNumber(UID_KEY, if m.uid < U32 / 2 then m.uid else m.uid - U32);
    PlainNumber(GID_KEY, if m.gid < U32 / 2 then m.gid else m.gid - U32);
    PlainNumber(TIME_KEY, m.time);
    PlainText(RULE_KEY, m.rule);
    PlainText(SHA_KEY, m.sha);
  }

  /** The lines joined by newlines, without a final one. */
  function Join(lines: seq<string>): string
    requires lines != []
  {
    if |lines| == 1 then lines[0] else lines[0] + "\n" + Join(lines[1..])
  }

  lemma {:induction false} UnlinesIsJoin(first: string, more: seq<string>)
    ensures Unlines([first] + more) == Join([first] + more) + "\n"
    decreases |more|
  {
    var lines := [first] + more;
    assert lines[1..] == more;
    if more != [] {
      assert more == [more[0]] + more[1..];
      UnlinesIsJoin(more[0], more[1..]);
    }
  }

  lemma {:induction false} JoinAfter(key: string, first: string, more: seq<string>)
    ensures key + Join([first] + more) == Join([key + first] + more)
  {
    assert ([first] + more)[1..] == more && ([key + first] + more)[1..] == more;
  }

  predicate Sized(path: string) {
    path != "" && NoNul(path) && |path| < PATH_MAX
  }

  lemma {:induction false} PrintedLines(m: Meta, first: string, more: seq<string>)
    requires Fields(m) && m.path == Join([first] + more)
    ensures PrintMeta(m) == Unlines(HeadLines(m) + ([PATH_KEY + first] + more))
  {
    JoinAfter(PATH_KEY, first, more);
    UnlinesIsJoin(PATH_KEY + first, more);
    UnlinesAppend(HeadLines(m), [PATH_KEY + first] + more);
  }

  /** A path that spans several lines: the first is the path read back, and every further line is
      taken as a field of its own. */
  lemma {:induction false} PathLines(m: Meta, first: string, more: seq<string>)
    requires Fields(m) && m.path == Join([first] + more)
    requires NoNewline(first) && NoNul(first) && |first| < PATH_MAX
    requires forall i :: 0 <= i < |more| ==> Plain(more[i])
    ensures MetaOf(PrintMeta(m)) == Checked(ApplyAll(m.(path := first), more))
  {
    PrintedLines(m, first, more);
    PlainHead(m);
    PlainPath(first);
    LinesRead(HeadLines(m), PATH_KEY + first, more);
    HeadRestored(m);
    PathApplied(m.(path := ""), first, more);
  }

  lemma {:induction false} PlainPath(first: string)
    requires NoNewline(first) && NoNul(first) && |first| < PATH_MAX
    ensures Plain(PATH_KEY + first)
  {
  }

  /** What is read from three runs of lines. */
  lemma {:induction false} LinesRead(head: seq<string>, path: string, more: seq<string>)
    requires Plain(path) && (forall i :: 0 <= i < |head| ==> Plain(head[i]))
    requires forall i :: 0 <= i < |more| ==> Plain(more[i])
    ensures MetaOf(Unlines(head + ([path] + more))) == Checked(ApplyAll(ApplyAll(START, head), [path] + more))
  {
    LinesOfUnlines(head + ([path] + more));
    ApplyAppend(START, head, [path] + more);
  }

  lemma {:induction false} PathApplied(m: Meta, first: string, more: seq<string>)
    requires |first| < PATH_MAX
    ensures ApplyAll(m, [PATH_KEY + first] + more) == ApplyAll(m.(path := first), more)
  {
    var tail := [PATH_KEY + first] + more;
    ApplyKey(m, PATH_KEY, first);
    assert tail[1..] == more;
  }

  lemma {:induction false} PathStaysOnOneLine(m: Meta, lines: seq<string>)
    requires NoNewline(m.path) && forall i :: 0 <= i < |lines| ==> NoNewline(lines[i])
    ensures NoNewline(ApplyAll(m, lines).path)
    decreases |lines|
  {
    if lines != [] {
      assert NoNewline(lines[0]);
      PathStaysOnOneLine(Apply(m, lines[0]), lines[1..]);
    }
  }

  lemma {:induction false} PathHasNoNewline(text: string)
    ensures MetaOf(text).Some? ==> NoNewline(MetaOf(text).value.path)
  {
    LinesHaveNoNewline(text);
    PathStaysOnOneLine(START, LinesIn(text));
  }

  /** The record read back is the record written exactly when the path has no newline. */
  lemma {:induction false} MetaRoundTrip(m: Meta)
    requires Fields(m) && Sized(m.path)
    ensures MetaOf(PrintMeta(m)) == Some(m) <==> NoNewline(m.path)
  {
    if NoNewline(m.path) {
      assert [m.path] + [] == [m.path];
      PathLines(m, m.path, []);
      assert m.(path := m.path) == m;
    } else {
      PathHasNoNewline(PrintMeta(m));
    }
  }

  /** A newline in the path does not only truncate it: the rest can set another field. */
  lemma {:induction false} PathSetsOwner(m: Meta, first: string, uid: nat)
    requires Fields(m) && uid < U32 && first != ""
    requires NoNewline(first) && NoNul(first) && |first| < PATH_MAX
    requires m.path == first + "\n" + UID_KEY + PrintSigned(uid)
    ensures MetaOf(PrintMeta(m)) == Some(m.(path := first, uid := uid))
  {
    var more := [UID_KEY + PrintSigned(uid)];
    PlainNumber(UID_KEY, if uid < U32 / 2 then uid else uid - U32);
    assert ([first] + more)[1..] == more;
    PathLines(m, first, more);
    SignedRoundTrip(uid);
    KeyLine(m.(path := first), more, UID_KEY, PrintSigned(uid));
  }

  lemma {:induction false} OneDigit(n: nat, base: nat, c: char)
    requires IsBase(base) && n < base && c as int == n + '0' as int
    ensures Digits(n, base) == [c]
  {
  }

  lemma {:induction false} MoreDigits(n: nat, base: nat, front: string, d: nat, c: char)
    requires IsBase(base) && n > 0 && d < base && c as int == d + '0' as int && Digits(n, base) == front
    ensures Digits(n * base + d, base) == front + [c]
  {
    var m := n * base + d;
    var q := DivMod(m, base);
    assert q.0 * base + q.1 == m && q.1 < base;
    SameQuotient(n, d, q.0, q.1, base);
  }

  lemma {:induction false} SameQuotient(n: nat, d: nat, q: nat, r: nat, base: nat)
    requires IsBase(base) && n * base + d == q * base + r && d < base && r < base
    ensures n == q && d == r
  {
  }

  lemma {:induction false} SampleNumbers()
    ensures Digits(2541, 8) == "4755" && Digits(1000, 10) == "1000" && Digits(2, 10) == "2" && Digits(75, 10) == "75"
  {
    OneDigit(4, 8, '4');
    MoreDigits(4, 8, "4", 7, '7');
    MoreDigits(39, 8, "47", 5, '5');
    MoreDigits(317, 8, "475", 5, '5');
    OneDigit(1, 10, '1');
    MoreDigits(1, 10, "1", 0, '0');
    MoreDigits(10, 10, "10", 0, '0');
    MoreDigits(100, 10, "100", 0, '0');
    OneDigit(2, 10, '2');
    OneDigit(7, 10, '7');
    MoreDigits(7, 10, "7", 5, '5');
  }

  /** The text of a record, spelled out: the mode in octal, identifiers as signed numbers. */
  lemma {:induction false} SampleRecord(m: Meta)
    requires m == Meta("/bin/x", 2541, 1000, 0xFFFF_FFFE, -75, "rule", "ab")
    ensures HeadLines(m) == ["ORIGINAL_MODE=" + "4755", "ORIGINAL_UID=" + "1000", "ORIGINAL_GID=" + "-2",
                             "TIMESTAMP=" + "-75", "RULE_NAME=" + "rule", "SHA256=" + "ab"]
    ensures PrintMeta(m) == Unlines(HeadLines(m)) + "ORIGINAL_PATH=" + "/bin/x" + "\n"
  {
    SampleNumbers();
    assert "-" + "2" == "-2" && "-" + "75" == "-75";
    assert PrintSigned(0xFFFF_FFFE) == "-2" && PrintInt(-75) == "-75" && PrintSigned(1000) == "1000";
  }
}
