/** The part of sscanf that both sides of the /proc files use: width-limited words, then the
    rest of the line. */
module Scan {
  import opened Text

  /** The kernel also counts the Latin-1 no-break space as blank. */
  predicate Blank(c: char, kernel: bool) {
    IsSpace(c) || (kernel && c as int == 160)
  }

  function SkipBlanks(s: string, kernel: bool): (r: string)
    ensures |r| <= |s| && (r != "" ==> !Blank(r[0], kernel))
    ensures forall i :: 0 <= i < |r| ==> r[i] in s
  {
    if s != "" && Blank(s[0], kernel) then SkipBlanks(s[1..], kernel) else s
  }

  function WordLen(s: string, width: nat, kernel: bool): (n: nat)
    ensures n <= |s| && n <= width && forall i :: 0 <= i < n ==> !Blank(s[i], kernel)
  {
    if s == "" || width == 0 || Blank(s[0], kernel) then 0 else 1 + WordLen(s[1..], width - 1, kernel)
  }

  function RestLen(s: string, width: nat): (n: nat)
    ensures n <= |s| && n <= width && forall i :: 0 <= i < n ==> s[i] != '\n'
  {
    if s == "" || width == 0 || s[0] == '\n' then 0 else 1 + RestLen(s[1..], width - 1)
  }

  /** "%w1s %w2s ... %T[^\n]": the fields that convert, in order. */
  function Fields(s: string, widths: seq<nat>, last: nat, kernel: bool): (f: seq<string>)
    ensures |f| <= |widths| + 1
    decreases |widths|
  {
    var t := SkipBlanks(s, kernel);
    if widths == [] then
      var n := RestLen(t, last);
      if n == 0 then [] else [t[..n]]
    else if t == "" then []
    else
      var n := WordLen(t, widths[0], kernel);
      [t[..n]] + Fields(t[n..], widths[1..], last, kernel)
  }

  predicate IsWord(w: string, kernel: bool) {
    w != "" && forall i :: 0 <= i < |w| ==> !Blank(w[i], kernel)
  }

  predicate IsRest(s: string, kernel: bool) {
    s != "" && !Blank(s[0], kernel) && NoNewline(s)
  }

  predicate IsEnd(s: string) {
    s == "" || s == "\n"
  }

  /** The words and the rest, separated by single blanks. */
  function Spaced(words: seq<string>, rest: string): string {
    if words == [] then rest else words[0] + " " + Spaced(words[1..], rest)
  }

  lemma {:induction false} WordEnds(w: string, rest: string, width: nat, kernel: bool)
    requires |w| <= width && forall i :: 0 <= i < |w| ==> !Blank(w[i], kernel)
    ensures WordLen(w + " " + rest, width, kernel) == |w|
  {
    var s := w + " " + rest;
    if w != "" {
      assert s[0] == w[0] && s[1..] == w[1..] + " " + rest;
      WordEnds(w[1..], rest, width - 1, kernel);
    } else {
      assert width == 0 || s[0] == ' ';
    }
  }

  lemma {:induction false} RestEnds(s: string, end: string, width: nat)
    requires |s| <= width && NoNewline(s) && IsEnd(end)
    ensures RestLen(s + end, width) == |s|
  {
    if s != "" {
      assert (s + end)[0] == s[0] && (s + end)[1..] == s[1..] + end;
      RestEnds(s[1..], end, width - 1);
    }
  }

  lemma {:induction false} BlankFirst(s: string, widths: seq<nat>, last: nat, kernel: bool)
    ensures Fields(" " + s, widths, last, kernel) == Fields(s, widths, last, kernel)
  {
    assert (" " + s)[1..] == s;
  }

  lemma {:induction false} OneWord(w: string, more: string, widths: seq<nat>, last: nat, kernel: bool)
    requires widths != [] && IsWord(w, kernel) && |w| <= widths[0]
    ensures Fields(w + " " + more, widths, last, kernel) == [w] + Fields(more, widths[1..], last, kernel)
  {
    var s := w + " " + more;
    assert s[0] == w[0];
    WordEnds(w, more, widths[0], kernel);
    assert s[..|w|] == w && s[|w|..] == " " + more;
    BlankFirst(more, widths[1..], last, kernel);
  }

  lemma {:induction false} OnlyRest(rest: string, end: string, last: nat, kernel: bool)
    requires IsRest(rest, kernel) && |rest| <= last && IsEnd(end)
    ensures Fields(rest + end, [], last, kernel) == [rest]
  {
    var s := rest + end;
    assert s[0] == rest[0];
    RestEnds(rest, end, last);
    assert s[..|rest|] == rest;
  }

  lemma {:induction false} SpacedStep(w: string, ws: seq<string>, rest: string, end: string)
    ensures Spaced([w] + ws, rest) + end == w + " " + (Spaced(ws, rest) + end)
  {
    assert ([w] + ws)[1..] == ws;
  }

  predicate WordsFit(words: seq<string>, widths: seq<nat>, kernel: bool) {
    |words| == |widths| && forall i :: 0 <= i < |words| ==> IsWord(words[i], kernel) && |words[i]| <= widths[i]
  }

  /** Fields that fit come back one by one, with or without the final newline. */
  lemma {:induction false} FieldsOfSpaced(words: seq<string>, rest: string, end: string, widths: seq<nat>, last: nat,
                                          kernel: bool)
    requires IsEnd(end)
    requires WordsFit(words, widths, kernel)
    requires IsRest(rest, kernel) && |rest| <= last
    ensures Fields(Spaced(words, rest) + end, widths, last, kernel) == words + [rest]
    decreases |words|
  {
    if words == [] {
      OnlyRest(rest, end, last, kernel);
    } else {
      var w, ws := words[0], words[1..];
      var more := Spaced(ws, rest) + end;
      assert WordsFit(ws, widths[1..], kernel) && IsWord(w, kernel);
      FieldsOfSpaced(ws, rest, end, widths[1..], last, kernel);
      OneWord(w, more, widths, last, kernel);
      SpacedStep(w, ws, rest, end);
      assert words == [w] + ws;
      assert [w] + ws + [rest] == [w] + (ws + [rest]);
    }
  }

  predicate IsField(w: string, width: nat, kernel: bool) {
    |w| <= width && NoNul(w) && forall i :: 0 <= i < |w| ==> !Blank(w[i], kernel)
  }

  /** Bounded fields, and a rest that starts with no blank. */
  ghost predicate Shaped(f: seq<string>, widths: seq<nat>, last: nat, kernel: bool) {
    && (forall i :: 0 <= i < |f| && i < |widths| ==> IsField(f[i], widths[i], kernel))
    && (|f| > |widths| ==> IsRest(f[|widths|], kernel) && NoNul(f[|widths|]) && |f[|widths|]| <= last)
  }

  lemma {:induction false} ShapedOne(w: string, g: seq<string>, widths: seq<nat>, last: nat, kernel: bool)
    requires widths != [] && IsField(w, widths[0], kernel) && Shaped(g, widths[1..], last, kernel)
    ensures Shaped([w] + g, widths, last, kernel)
  {
    var f := [w] + g;
    forall i | 0 <= i < |f| && i < |widths| ensures IsField(f[i], widths[i], kernel) {
      if i > 0 {
        assert IsField(g[i - 1], widths[1..][i - 1], kernel);
      }
    }
  }

  /** What any converted text looks like. */
  lemma {:induction false} FieldsShape(s: string, widths: seq<nat>, last: nat, kernel: bool)
    requires NoNul(s)
    ensures Shaped(Fields(s, widths, last, kernel), widths, last, kernel)
    decreases |widths|
  {
    var t := SkipBlanks(s, kernel);
    if widths != [] && t != "" {
      var n := WordLen(t, widths[0], kernel);
      FieldsShape(t[n..], widths[1..], last, kernel);
      ShapedOne(t[..n], Fields(t[n..], widths[1..], last, kernel), widths, last, kernel);
    }
  }
}
