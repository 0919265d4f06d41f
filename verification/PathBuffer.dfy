/** The in-place normalizer on a NUL-terminated buffer, the resolver in front of it, and the
    self-delete check behind it. */
module PathBuffer {
  import opened Options
  import opened PathSpec
  import Seqs

  // ----- C strings

  ghost predicate Terminated(buf: seq<char>) {
    '\0' in buf
  }

  /** The characters before the first NUL. */
  function Text(buf: seq<char>): (s: string)
    ensures |s| <= |buf| && '\0' !in s
    ensures s == buf[..|s|] && (|s| < |buf| ==> buf[|s|] == '\0')
  {
    if buf == [] || buf[0] == '\0' then [] else [buf[0]] + Text(buf[1..])
  }

  lemma {:induction false} TextIs(buf: seq<char>, s: string)
    requires |s| < |buf| && buf[..|s|] == s && buf[|s|] == '\0' && '\0' !in s
    ensures Text(buf) == s
  {
    if s != [] {
      assert s[0] in s;
      TextIs(buf[1..], s[1..]);
    }
  }

  lemma {:induction false} TextShorter(buf: seq<char>)
    requires Terminated(buf)
    ensures |Text(buf)| < |buf|
  {
    assert buf[..|buf|] == buf;
  }

  /** What a bounded copy or append leaves of a string. */
  function Truncated(s: string, size: nat): string
    requires size > 0
  {
    if |s| < size then s else s[..size - 1]
  }

  method StrLCat(buf: array<char>, src: string)
    requires Terminated(buf[..]) && '\0' !in src
    modifies buf
    ensures Terminated(buf[..]) && Text(buf[..]) == Truncated(Text(old(buf[..])) + src, buf.Length)
  {
    ghost var t := Text(buf[..]);
    TextShorter(buf[..]);
    var n := 0;
    while buf[n] != '\0'
      invariant n <= |t|
      decreases |t| - n
    {
      assert buf[n] == t[n];
      n := n + 1;
    }
    var room := buf.Length - 1 - n;
    var m := if |src| < room then |src| else room;
    forall k | 0 <= k < m {
      buf[n + k] := src[k];
    }
    buf[n + m] := '\0';
    ghost var r := Truncated(t + src, buf.Length);
    assert r == t + src[..m];
    assert buf[..n + m] == t + src[..m];
    TextIs(buf[..], r);
    assert buf[..][n + m] == '\0';
  }

  // ----- tokenizing

  /** The next piece up to a slash, and where the piece after it starts, if there is one. */
  method StrSep(s: string, pos: nat) returns (tok: string, more: bool, next: nat)
    requires pos <= |s|
    ensures '/' !in tok
    ensures more ==> pos < next <= |s|
    ensures Split(s[pos..]) == [tok] + (if more then Split(s[next..]) else [])
  {
    ghost var u := s[pos..];
    var k := FirstSlash(s[pos..]);
    tok := s[pos..pos + k];
    more := pos + k < |s|;
    next := pos + k + 1;
    assert s[pos..][..k] == tok;
    if more {
      assert s[pos..][k + 1..] == s[next..];
    } else {
      assert u[..|u|] == u;
      assert [tok] + [] == [tok];
    }
  }

  lemma {:induction false} BoundedSnoc(toks: seq<string>, tok: string, cap: nat)
    requires Bounded(toks, cap).Some?
    ensures var stack := Bounded(toks, cap).value;
            Bounded(toks + [tok], cap) == if IsName(tok) && |stack| >= cap then None else Some(Walk(stack, tok))
  {
    assert (toks + [tok])[..|toks|] == toks;
  }

  /** Handles one piece. `rest` are the pieces still to come. */
  method PushPiece(stack: seq<string>, tok: string, ghost toks: seq<string>, ghost rest: seq<string>)
    returns (stack': seq<string>, overflowed: bool)
    requires Bounded(toks, STACK_MAX) == Some(stack)
    ensures if overflowed then Bounded(toks + [tok] + rest, STACK_MAX) == None
            else Bounded(toks + [tok], STACK_MAX) == Some(stack')
  {
    BoundedSnoc(toks, tok, STACK_MAX);
    if tok == "" || tok == "." {
      return stack, false;
    }
    if tok == ".." {
      return if |stack| > 0 then stack[..|stack| - 1] else stack, false;
    }
    if |stack| < STACK_MAX {
      return stack + [tok], false;
    }
    OverflowStays(toks + [tok], rest, STACK_MAX);
    return [], true;
  }

  /** The component stack after all pieces, or overflow. */
  method StackComponents(s: string) returns (stack: seq<string>, overflowed: bool)
    ensures Bounded(Split(s), STACK_MAX) == if overflowed then None else Some(stack)
  {
    stack, overflowed := [], false;
    var pos, more := 0, true;
    ghost var toks, rest := [], Split(s);
    assert s[0..] == s;
    while more
      invariant pos <= |s|
      invariant Split(s) == toks + rest && rest == if more then Split(s[pos..]) else []
      invariant Bounded(toks, STACK_MAX) == Some(stack)
      decreases more, |s| - pos
    {
      var tok, again, next := StrSep(s, pos);
      rest := if again then Split(s[next..]) else [];
      Seqs.Assoc(toks, [tok], rest);
      stack, overflowed := PushPiece(stack, tok, toks, rest);
      if overflowed {
        return;
      }
      toks := toks + [tok];
      more := again;
      if again {
        pos := next;
      }
    }
    assert toks + rest == toks;
  }

  lemma {:induction false} OverflowStays(a: seq<string>, b: seq<string>, cap: nat)
    requires Bounded(a, cap).None?
    ensures Bounded(a + b, cap).None?
  {
    if b == [] {
      assert a + b == a;
    } else {
      assert (a + b)[..|a + b| - 1] == a + b[..|b| - 1];
      OverflowStays(a, b[..|b| - 1], cap);
    }
  }

  // ----- normalizing in place

  lemma {:induction false} WalkNoNul(toks: seq<string>, s: string)
    requires '\0' !in s && forall i :: 0 <= i < |toks| ==> '\0' !in toks[i]
    ensures forall i :: 0 <= i < |WalkAll([], toks)| ==> '\0' !in WalkAll([], toks)[i]
  {
    if toks != [] {
      WalkNoNul(toks[..|toks| - 1], s);
    }
  }

  lemma {:induction false} SplitNoNul(s: string)
    requires '\0' !in s
    ensures forall i :: 0 <= i < |Split(s)| ==> '\0' !in Split(s)[i]
    decreases |s|
  {
    var k := FirstSlash(s);
    if k < |s| {
      SplitNoNul(s[k + 1..]);
    }
  }

  lemma {:induction false} JoinPrefix(stack: seq<string>, i: nat)
    requires i <= |stack|
    ensures |JoinAll(stack[..i])| <= |JoinAll(stack)|
    decreases |stack|
  {
    if i < |stack| {
      JoinPrefix(stack[..|stack| - 1], i);
      assert stack[..|stack| - 1][..i] == stack[..i];
    } else {
      assert stack[..i] == stack;
    }
  }

  /** Writes "/" and every name after an emptied buffer; nothing is cut off. */
  method WriteStack(path: array<char>, stack: seq<string>)
    requires path.Length > 0 && |Render(stack)| < path.Length
    requires forall i :: 0 <= i < |stack| ==> '\0' !in stack[i]
    modifies path
    ensures Terminated(path[..]) && Text(path[..]) == Render(stack)
  {
    path[0] := '\0';
    TextIs(path[..], "");
    assert path[..][0] == '\0';
    if |stack| == 0 {
      StrLCat(path, "/");
    }
    assert stack[..0] == [];
    for i := 0 to |stack|
      invariant Terminated(path[..])
      invariant stack != [] ==> Text(path[..]) == JoinAll(stack[..i])
      invariant stack == [] ==> Text(path[..]) == "/"
    {
      assert stack[..i + 1][..i] == stack[..i];
      JoinPrefix(stack, i + 1);
      StrLCat(path, "/");
      StrLCat(path, stack[i]);
    }
    assert stack[..|stack|] == stack;
  }

  /** Rewrites an absolute path in place; without memory for the scratch copy it is left alone. */
  method NormalizeInPlace(path: array<char>, allocOk: bool)
    requires Terminated(path[..]) && Text(path[..]) != "" && Text(path[..])[0] == '/'
    modifies path
    ensures Terminated(path[..])
    ensures Text(path[..]) == if allocOk then Normalize(Text(old(path[..]))) else Text(old(path[..]))
  {
    if !allocOk {
      return;
    }
    var tmp := Text(path[..]);
    TextShorter(path[..]);
    var stack, overflowed := StackComponents(tmp);
    if overflowed {
      return;
    }
    NormalizeShortens(tmp);
    BoundedIsWalk(Split(tmp), STACK_MAX);
    SplitNoNul(tmp);
    WalkNoNul(Split(tmp), tmp);
    WriteStack(path, stack);
  }

  // ----- resolving against a directory

  /** What the resolver writes. `dir` is the directory's own path, or None when the kernel
      could not produce it; `tmpOk` and `dupOk` are the two allocations. */
  function Resolved(path: string, dir: Option<string>, tmpOk: bool, dupOk: bool, size: nat): string
    requires size > 0
  {
    if path == "" then (if !tmpOk || dir.None? then "" else Truncated(dir.value, size))
    else if path[0] == '/' then MaybeNormal(Truncated(path, size), dupOk)
    else if !tmpOk || dir.None? then Truncated(path, size)
    else
      var full := dir.value + "/" + path;
      if |full| >= size then Truncated(path, size) else MaybeNormal(full, dupOk)
  }

  function MaybeNormal(s: string, dupOk: bool): string {
    if dupOk then Normalize(s) else s
  }

  method CopyTo(out: array<char>, src: string)
    requires out.Length > 0 && '\0' !in src
    modifies out
    ensures Terminated(out[..]) && Text(out[..]) == Truncated(src, out.Length)
  {
    out[0] := '\0';
    TextIs(out[..], "");
    assert out[..][0] == '\0';
    StrLCat(out, src);
    assert "" + src == src;
  }

  method ResolveAbsolutePath(path: string, dir: Option<string>, tmpOk: bool, dupOk: bool, out: array<char>)
    requires out.Length > 1 && '\0' !in path
    requires dir.Some? ==> '\0' !in dir.value && dir.value != "" && dir.value[0] == '/'
    modifies out
    ensures Terminated(out[..]) && Text(out[..]) == Resolved(path, dir, tmpOk, dupOk, out.Length)
  {
    if path == "" {
      CopyTo(out, if !tmpOk || dir.None? then "" else dir.value);
      return;
    }
    if path[0] == '/' {
      CopyTo(out, path);
      NormalizeInPlace(out, dupOk);
      return;
    }
    if !tmpOk || dir.None? {
      CopyTo(out, path);
      return;
    }
    var full := dir.value + "/" + path;
    if |full| >= out.Length {
      CopyTo(out, path);
    } else {
      CopyTo(out, full);
      NormalizeInPlace(out, dupOk);
    }
  }

  /** The location a call names: its directory's when the path is empty, else the path's own or
      the path's from the directory. */
  function Denotes(path: string, dir: string): seq<string> {
    if path == "" then Location(dir)
    else if path[0] == '/' then Location(path)
    else WalkAll(Location(dir), Split(path))
  }

  predicate IsAbsolute(s: string) {
    s != "" && s[0] == '/'
  }

  /** Whenever the resolver's answer is absolute it names the location the call denoted, on
      every allocation, directory and truncation outcome. */
  lemma {:induction false} AbsoluteAnswerIsRight(path: string, dir: Option<string>, tmpOk: bool, dupOk: bool, size: nat)
    requires |path| < size && (dir.Some? ==> |dir.value| < size && IsAbsolute(dir.value))
    requires IsAbsolute(Resolved(path, dir, tmpOk, dupOk, size))
    ensures Location(Resolved(path, dir, tmpOk, dupOk, size))
         == Denotes(path, if dir.Some? then dir.value else "")
  {
    NormalizeLaws(path);
    if dir.Some? {
      NormalizeLaws(dir.value + "/" + path);
      RelativeWalk(dir.value, path);
    }
  }

  /** Otherwise the answer is the path as it was given: exactly when it is relative and there is no
      memory, no directory, or no room for the two together; or when it is empty and the directory
      cannot be told. */
  lemma {:induction false} OtherAnswerIsRaw(path: string, dir: Option<string>, tmpOk: bool, dupOk: bool, size: nat)
    requires |path| < size && (dir.Some? ==> |dir.value| < size && IsAbsolute(dir.value))
    ensures IsAbsolute(Resolved(path, dir, tmpOk, dupOk, size)) <==>
      IsAbsolute(path) || (tmpOk && dir.Some? && (path != "" ==> |dir.value| + 1 + |path| < size))
    ensures !IsAbsolute(Resolved(path, dir, tmpOk, dupOk, size)) ==> Resolved(path, dir, tmpOk, dupOk, size) == path
  {
    if IsAbsolute(path) {
      NormalIsAbsolute(path);
    } else if tmpOk && dir.Some? {
      NormalIsAbsolute(dir.value + "/" + path);
    }
  }

  /** The unlink-time test against the path recorded at exec time. */
  predicate SelfDeleteMatch(execPath: string, path: string) {
    IsAbsolute(execPath) && IsAbsolute(path) && execPath == path
  }

  /** Two calls that matched denoted the same location, whatever failed on the way. */
  lemma {:induction false} SelfDeleteSound(
    p: string, pDir: Option<string>, pTmp: bool, pDup: bool,
    q: string, qDir: Option<string>, qTmp: bool, qDup: bool, size: nat)
    requires |p| < size && (pDir.Some? ==> |pDir.value| < size && IsAbsolute(pDir.value))
    requires |q| < size && (qDir.Some? ==> |qDir.value| < size && IsAbsolute(qDir.value))
    requires SelfDeleteMatch(Resolved(p, pDir, pTmp, pDup, size), Resolved(q, qDir, qTmp, qDup, size))
    ensures Denotes(p, if pDir.Some? then pDir.value else "") == Denotes(q, if qDir.Some? then qDir.value else "")
  {
    AbsoluteAnswerIsRight(p, pDir, pTmp, pDup, size);
    AbsoluteAnswerIsRight(q, qDir, qTmp, qDup, size);
  }

  /** The full spelling the resolver answers for when nothing fails. */
  function FullSpelling(path: string, dir: string): string {
    if path == "" then dir else if IsAbsolute(path) then path else dir + "/" + path
  }

  lemma {:induction false} ResolvedIsNormal(path: string, dir: string, size: nat)
    requires IsAbsolute(dir) && |FullSpelling(path, dir)| < size && Fits(FullSpelling(path, dir))
    requires path == "" ==> Normalize(dir) == dir
    ensures Resolved(path, Some(dir), true, true, size) == Normalize(FullSpelling(path, dir))
    ensures IsAbsolute(Normalize(FullSpelling(path, dir)))
    ensures Location(FullSpelling(path, dir)) == Denotes(path, dir)
  {
    NormalizeShortens(FullSpelling(path, dir));
    RelativeWalk(dir, path);
    NormalIsAbsolute(FullSpelling(path, dir));
  }

  /** When nothing fails and the spellings fit the buffer and the component limit, the test
      decides exactly whether the two calls denote the same location. An empty path is answered
      with its directory as the kernel spells it, which has no empty, dot or dot-dot component. */
  lemma {:induction false} SelfDeleteDecides(p: string, pDir: string, q: string, qDir: string, size: nat)
    requires IsAbsolute(pDir) && (p == "" ==> Normalize(pDir) == pDir)
    requires IsAbsolute(qDir) && (q == "" ==> Normalize(qDir) == qDir)
    requires |FullSpelling(p, pDir)| < size && |FullSpelling(q, qDir)| < size
    requires Fits(FullSpelling(p, pDir)) && Fits(FullSpelling(q, qDir))
    ensures SelfDeleteMatch(Resolved(p, Some(pDir), true, true, size), Resolved(q, Some(qDir), true, true, size))
       <==> Denotes(p, pDir) == Denotes(q, qDir)
  {
    ResolvedIsNormal(p, pDir, size);
    ResolvedIsNormal(q, qDir, size);
    NormalizeDecides(FullSpelling(p, pDir), FullSpelling(q, qDir));
  }

  lemma {:induction false} JoinStartsWithSlash(stack: seq<string>)
    requires stack != []
    ensures IsAbsolute(JoinAll(stack))
  {
    if |stack| > 1 {
      JoinStartsWithSlash(stack[..|stack| - 1]);
    } else {
      assert stack[..0] == [];
    }
  }

  lemma {:induction false} NormalIsAbsolute(s: string)
    requires IsAbsolute(s)
    ensures IsAbsolute(Normalize(s))
  {
    if Fits(s) {
      FittingRender(s);
      if Location(s) != [] {
        JoinStartsWithSlash(Location(s));
      }
    }
  }

  /** Beyond the component limit two spellings of one location stay apart. */
  lemma {:induction false} DeepSpellingsDiffer(path: string)
    requires !Fits(path)
    ensures Location(path + "/.") == Location(path) && Normalize(path + "/.") != Normalize(path)
  {
    var dotted := path + "/" + ".";
    assert dotted == path + "/.";
    SplitConcat(path, ".");
    SplitName(".");
    RelativeWalk(path, ".");
    assert ["."][..0] == [];
    assert WalkAll(Location(path), ["."][..0]) == Location(path);
    OverflowStays(Split(path), ["."], STACK_MAX);
  }
}
