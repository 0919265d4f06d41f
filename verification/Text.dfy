/** C strings, blanks and lines of text. */
module Text {
  const NUL := 0 as char
  const PATH_MAX := 4096

  predicate IsHex(c: char) {
    '0' <= c <= '9' || 'a' <= c <= 'f' || 'A' <= c <= 'F'
  }

  predicate IsSpace(c: char) {
    c == ' ' || '\t' <= c <= '\r'
  }

  function SkipSpace(s: string): string {
    if s != "" && IsSpace(s[0]) then SkipSpace(s[1..]) else s
  }

  predicate NoNewline(s: string) {
    forall i :: 0 <= i < |s| ==> s[i] != '\n'
  }

  predicate NoNul(s: string) {
    forall i :: 0 <= i < |s| ==> s[i] != NUL
  }

  function Cut(s: string, n: nat): string {
    if |s| <= n then s else s[..n]
  }

  function Unlines(lines: seq<string>): string {
    if lines == [] then "" else lines[0] + "\n" + Unlines(lines[1..])
  }

  /** How much one fgets call takes: through the first newline, at most `room` characters. */
  function ChunkLen(text: string, room: nat): (k: nat)
    ensures k <= |text| && k <= room && (text != "" && room > 0 ==> k > 0)
    ensures forall i :: 0 <= i < k - 1 ==> text[i] != '\n'
  {
    if text == "" || room == 0 then 0
    else if text[0] == '\n' then 1
    else 1 + ChunkLen(text[1..], room - 1)
  }

  function UpToNul(s: string): (r: string)
    ensures r <= s && NoNul(r) && (NoNul(s) ==> r == s)
  {
    if s == "" || s[0] == NUL then "" else
    assert s == [s[0]] + s[1..];
    [s[0]] + UpToNul(s[1..])
  }

  lemma {:induction false} ChunkOfLine(line: string, rest: string, room: nat)
    requires NoNewline(line) && |line| < room
    ensures ChunkLen(line + "\n" + rest, room) == |line| + 1
  {
    var text := line + "\n" + rest;
    if line != "" {
      assert text[0] == line[0];
      assert text[1..] == line[1..] + "\n" + rest;
      ChunkOfLine(line[1..], rest, room - 1);
    }
  }

  lemma {:induction false} UnlinesAppend(a: seq<string>, b: seq<string>)
    ensures Unlines(a + b) == Unlines(a) + Unlines(b)
  {
    if a == [] {
      assert a + b == b;
    } else {
      assert (a + b)[0] == a[0] && (a + b)[1..] == a[1..] + b;
      UnlinesAppend(a[1..], b);
    }
  }

  /** The lines of a text, as a listing that prints it shows them; without a newline, the text. */
  function LinesOf(text: string): (lines: seq<string>)
    ensures lines != []
  {
    if text == "" then [""]
    else if text[0] == '\n' then [""] + LinesOf(text[1..])
    else
      var r := LinesOf(text[1..]);
      [[text[0]] + r[0]] + r[1..]
  }

  lemma {:induction false} OneLineOf(text: string)
    requires NoNewline(text)
    ensures LinesOf(text) == [text]
  {
    if text != "" {
      OneLineOf(text[1..]);
      assert text == [text[0]] + text[1..];
    }
  }

  /** Each of them is on one line, no longer than the text. */
  lemma {:induction false} LineOf(text: string, i: nat)
    requires i < |LinesOf(text)|
    ensures var line := LinesOf(text)[i];
      NoNewline(line) && |line| <= |text| && (NoNul(text) ==> NoNul(line))
  {
    if text != "" {
      if text[0] == '\n' {
        if i > 0 {
          LineOf(text[1..], i - 1);
        }
      } else {
        LineOf(text[1..], i);
      }
    }
  }

  lemma {:induction false} UnlinesOfLines(text: string)
    ensures Unlines(LinesOf(text)) == text + "\n"
  {
    if text == "" {
      assert LinesOf(text)[1..] == [];
    } else {
      var r := LinesOf(text[1..]);
      UnlinesOfLines(text[1..]);
      assert text == [text[0]] + text[1..];
      if text[0] == '\n' {
        assert ([""] + r)[1..] == r;
      } else {
        var first := [text[0]] + r[0];
        assert ([first] + r[1..])[1..] == r[1..];
        assert first + "\n" + Unlines(r[1..]) == [text[0]] + (r[0] + "\n" + Unlines(r[1..]));
      }
    }
  }
}
