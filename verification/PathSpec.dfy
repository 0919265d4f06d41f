/** Lexical path resolution: components, the stack semantics of "." and "..", and the
    canonical spelling of a location. */
module PathSpec {
  import opened Options

  const STACK_MAX := 128

  /** Position of the first slash, or the length. */
  function FirstSlash(s: string): (k: nat)
    ensures k <= |s| && (k < |s| ==> s[k] == '/') && forall i :: 0 <= i < k ==> s[i] != '/'
  {
    if s == "" || s[0] == '/' then 0 else 1 + FirstSlash(s[1..])
  }

  /** The pieces between slashes, empty ones included. */
  function Split(s: string): (toks: seq<string>)
    ensures toks != []
    ensures forall i :: 0 <= i < |toks| ==> '/' !in toks[i]
    decreases |s|
  {
    var k := FirstSlash(s);
    if k == |s| then [s] else [s[..k]] + Split(s[k + 1..])
  }

  /** Where one more component leads. */
  function Walk(stack: seq<string>, tok: string): seq<string> {
    if tok == "" || tok == "." then stack
    else if tok == ".." then (if stack == [] then [] else stack[..|stack| - 1])
    else stack + [tok]
  }

  function WalkAll(stack: seq<string>, toks: seq<string>): seq<string> {
    if toks == [] then stack else Walk(WalkAll(stack, toks[..|toks| - 1]), toks[|toks| - 1])
  }

  /** The location a path names: a list of component names from the root. */
  function Location(path: string): seq<string> {
    WalkAll([], Split(path))
  }

  predicate IsName(tok: string) {
    tok != "" && tok != "." && tok != ".."
  }

  /** The same walk with a stack of cap slots, or None when a push would not fit. */
  function Bounded(toks: seq<string>, cap: nat): Option<seq<string>> {
    if toks == [] then Some([])
    else
      var tok, r := toks[|toks| - 1], Bounded(toks[..|toks| - 1], cap);
      if r.None? || (IsName(tok) && |r.value| >= cap) then None else Some(Walk(r.value, tok))
  }

  function JoinAll(stack: seq<string>): string {
    if stack == [] then "" else JoinAll(stack[..|stack| - 1]) + "/" + stack[|stack| - 1]
  }

  function Render(stack: seq<string>): string {
    if stack == [] then "/" else JoinAll(stack)
  }

  /** Within the component limit. */
  predicate Fits(path: string) {
    Bounded(Split(path), STACK_MAX).Some?
  }

  /** The canonical spelling; a path beyond the limit is left as it is. */
  function Normalize(path: string): string {
    var r := Bounded(Split(path), STACK_MAX);
    if r.None? then path else Render(r.value)
  }

  // ----- stacks

  ghost predicate Clean(stack: seq<string>) {
    forall i :: 0 <= i < |stack| ==> IsName(stack[i]) && '/' !in stack[i]
  }

  lemma {:induction false} WalkAllClean(stack: seq<string>, toks: seq<string>)
    requires Clean(stack) && forall i :: 0 <= i < |toks| ==> '/' !in toks[i]
    ensures Clean(WalkAll(stack, toks))
  {
    if toks != [] {
      WalkAllClean(stack, toks[..|toks| - 1]);
    }
  }

  lemma {:induction false} WalkAllConcat(stack: seq<string>, a: seq<string>, b: seq<string>)
    ensures WalkAll(stack, a + b) == WalkAll(WalkAll(stack, a), b)
  {
    if b == [] {
      assert a + b == a;
    } else {
      assert (a + b)[..|a + b| - 1] == a + b[..|b| - 1];
      WalkAllConcat(stack, a, b[..|b| - 1]);
    }
  }

  /** The bounded walk, where it succeeds, is the walk, and stays within its bound. */
  lemma {:induction false} BoundedIsWalk(toks: seq<string>, cap: nat)
    requires Bounded(toks, cap).Some?
    ensures Bounded(toks, cap).value == WalkAll([], toks) && |Bounded(toks, cap).value| <= cap
  {
    if toks != [] {
      BoundedIsWalk(toks[..|toks| - 1], cap);
    }
  }

  /** Walking down names from the root piles them up. */
  lemma {:induction false} WalkNames(stack: seq<string>, cap: nat)
    requires Clean(stack)
    ensures WalkAll([], [""] + stack) == stack
    ensures |stack| <= cap ==> Bounded([""] + stack, cap) == Some(stack)
  {
    var toks := [""] + stack;
    if stack == [] {
      assert toks[..0] == [];
      assert WalkAll([], toks[..0]) == [] && Bounded(toks[..0], cap) == Some([]);
    } else {
      var p := stack[..|stack| - 1];
      WalkNames(p, cap);
      assert toks[..|toks| - 1] == [""] + p;
      assert stack == p + [stack[|stack| - 1]];
    }
  }

  // ----- spelling

  lemma {:induction false} SplitAtFirst(front: string, rest: string)
    requires '/' !in front
    ensures Split(front + "/" + rest) == [front] + Split(rest)
  {
    var s := front + "/" + rest;
    FirstSlashIs(s, |front|);
    assert s[..|front|] == front && s[|front| + 1..] == rest;
  }

  lemma {:induction false} SplitConcat(a: string, b: string)
    ensures Split(a + "/" + b) == Split(a) + Split(b)
    decreases |a|
  {
    var k := FirstSlash(a);
    if k == |a| {
      SplitAtFirst(a, b);
    } else {
      var front, rest := a[..k], a[k + 1..];
      assert a + "/" + b == front + "/" + (rest + "/" + b);
      SplitAtFirst(front, rest + "/" + b);
      SplitConcat(rest, b);
    }
  }

  lemma {:induction false} FirstSlashIs(s: string, k: nat)
    requires k < |s| && s[k] == '/' && forall i :: 0 <= i < k ==> s[i] != '/'
    ensures FirstSlash(s) == k
  {
  }

  lemma {:induction false} SplitName(tok: string)
    requires '/' !in tok
    ensures Split(tok) == [tok]
  {
    assert FirstSlash(tok) == |tok|;
  }

  lemma {:induction false} SplitJoin(stack: seq<string>)
    requires Clean(stack)
    ensures Split(JoinAll(stack)) == [""] + stack
  {
    if stack == [] {
      SplitName("");
    } else {
      var p, last := stack[..|stack| - 1], stack[|stack| - 1];
      SplitJoin(p);
      SplitConcat(JoinAll(p), last);
      SplitName(last);
      assert stack == p + [last];
      assert [""] + p + [last] == [""] + stack;
    }
  }

  /** A rendered location is split and walked back to itself. */
  lemma {:induction false} RenderRoundTrip(stack: seq<string>)
    requires Clean(stack)
    ensures Location(Render(stack)) == stack
    ensures |stack| <= STACK_MAX ==> Bounded(Split(Render(stack)), STACK_MAX) == Some(stack)
  {
    if stack == [] {
      SplitConcat("", "");
      assert "" + "/" + "" == "/";
      SplitName("");
      assert [""] + [""] == ["", ""];
      RootWalk();
    } else {
      SplitJoin(stack);
      WalkNames(stack, STACK_MAX);
    }
  }

  lemma {:induction false} RootWalk()
    ensures WalkAll([], ["", ""]) == [] && Bounded(["", ""], STACK_MAX) == Some([])
  {
    assert ["", ""][..1] == [""];
    assert [""][..0] == [];
    assert WalkAll([], [""][..0]) == [] && Bounded([""][..0], STACK_MAX) == Some([]);
    assert WalkAll([], [""]) == [] && Bounded([""], STACK_MAX) == Some([]);
  }

  lemma {:induction false} FittingRender(path: string)
    requires Fits(path)
    ensures Clean(Location(path)) && |Location(path)| <= STACK_MAX && Normalize(path) == Render(Location(path))
  {
    BoundedIsWalk(Split(path), STACK_MAX);
    WalkAllClean([], Split(path));
  }

  // ----- the laws

  /** Normalizing keeps the location named, fitting paths stay fitting, and twice is once. */
  lemma {:induction false} NormalizeLaws(path: string)
    ensures Location(Normalize(path)) == Location(path)
    ensures Fits(Normalize(path)) <==> Fits(path)
    ensures Normalize(Normalize(path)) == Normalize(path)
  {
    if Fits(path) {
      FittingRender(path);
      RenderRoundTrip(Location(path));
    }
  }

  /** Exactly when two spellings normalize to the same string: they are the same string, or
      both are within the limit and name the same location. */
  lemma {:induction false} NormalizeDecides(p: string, q: string)
    ensures Normalize(p) == Normalize(q) <==> p == q || (Fits(p) && Fits(q) && Location(p) == Location(q))
  {
    NormalizeLaws(p);
    NormalizeLaws(q);
    if Fits(p) && Fits(q) {
      FittingRender(p);
      FittingRender(q);
    }
  }

  /** A relative remainder under a directory is walked from that directory's location. */
  lemma {:induction false} RelativeWalk(dir: string, rest: string)
    ensures Location(dir + "/" + rest) == WalkAll(Location(dir), Split(rest))
  {
    SplitConcat(dir, rest);
    WalkAllConcat([], Split(dir), Split(rest));
  }

  // ----- one component at a time

  lemma {:induction false} WalkOne(stack: seq<string>, tok: string)
    ensures WalkAll(stack, [tok]) == Walk(stack, tok)
  {
    assert [tok][..0] == [];
    assert WalkAll(stack, [tok][..0]) == stack;
  }

  lemma {:induction false} StepLocation(p: string, tok: string)
    requires '/' !in tok
    ensures Location(p + "/" + tok) == Walk(Location(p), tok) && Location(tok) == Walk([], tok)
  {
    RelativeWalk(p, tok);
    SplitName(tok);
    WalkOne(Location(p), tok);
    WalkOne([], tok);
  }

  /** A further name leads one level down. */
  lemma {:induction false} LocationOfName(p: string, n: string)
    requires '/' !in n && n != "" && n != "." && n != ".."
    ensures Location(p + "/" + n) == Location(p) + [n] && Location(n) == [n]
  {
    StepLocation(p, n);
  }

  lemma {:induction false} LocationStays(p: string, tok: string)
    requires tok == "" || tok == "."
    ensures Location(p + "/" + tok) == Location(p) && Location(tok) == []
  {
    StepLocation(p, tok);
  }

  lemma {:induction false} LocationUp(p: string, tok: string)
    requires tok == ".."
    ensures Location(tok) == []
    ensures Location(p + "/" + tok) == if Location(p) == [] then [] else Location(p)[..|Location(p)| - 1]
  {
    StepLocation(p, tok);
  }

  lemma {:induction false} TwoPieces(p: string, a: string, b: string, ab: string)
    requires ab == a + b
    ensures p + a + b == p + ab
  {
  }

  /** A further slash or "." leads nowhere, a further ".." one level up, and not above the root. */
  lemma {:induction false} LocationOfDots(p: string)
    ensures Location(p + "/") == Location(p) && Location(p + "/.") == Location(p)
    ensures Location(p + "/..") == if Location(p) == [] then [] else Location(p)[..|Location(p)| - 1]
    ensures Location("") == Location(".") == Location("..") == []
  {
    LocationStays(p, "");
    LocationStays(p, ".");
    LocationUp(p, "..");
    TwoPieces(p, "/", "", "/");
    TwoPieces(p, "/", ".", "/.");
    TwoPieces(p, "/", "..", "/..");
  }

  lemma {:induction false} BoundedOne(tok: string)
    ensures Bounded([tok], 128) == Some(Walk([], tok))
  {
    assert [tok][..0] == [];
    assert Bounded([tok][..0], 128) == Some([]);
  }

  /** A path is within the limit as long as no name comes on top of 128 others. */
  lemma {:induction false} FitsStep(p: string, tok: string)
    requires '/' !in tok
    ensures Fits(tok)
    ensures Fits(p + "/" + tok) <==>
              Fits(p) && (tok == "" || tok == "." || tok == ".." || |Location(p)| < 128)
  {
    SplitName(tok);
    BoundedOne(tok);
    SplitConcat(p, tok);
    assert (Split(p) + [tok])[..|Split(p)|] == Split(p);
    if Fits(p) {
      BoundedIsWalk(Split(p), 128);
    }
  }

  lemma {:induction false} JoinStep(stack: seq<string>, n: string)
    ensures JoinAll(stack + [n]) == JoinAll(stack) + "/" + n && Render(stack + [n]) == JoinAll(stack + [n])
  {
    assert (stack + [n])[..|stack|] == stack && (stack + [n])[|stack|] == n;
  }

  lemma {:induction false} RenderUnder(stack: seq<string>, n: string)
    ensures Render(stack + [n]) == (if stack == [] then "" else Render(stack)) + "/" + n
  {
    JoinStep(stack, n);
  }

  /** The canonical spelling of a path within the limit: "/" for the root, otherwise that of the
      level above, a slash and the name. */
  lemma {:induction false} NormalizeStep(p: string, n: string)
    requires '/' !in n && n != "" && n != "." && n != ".." && Fits(p + "/" + n)
    ensures Location(p) == [] ==> Normalize(p) == "/"
    ensures Normalize(p + "/" + n) == (if Location(p) == [] then "" else Normalize(p)) + "/" + n
  {
    FitsStep(p, n);
    FittingRender(p);
    FittingRender(p + "/" + n);
    LocationOfName(p, n);
    RenderUnder(Location(p), n);
  }

  // ----- length

  /** Length of the pieces with one slash each. */
  function Spelled(toks: seq<string>): nat {
    if toks == [] then 0 else Spelled(toks[..|toks| - 1]) + 1 + |toks[|toks| - 1]|
  }

  lemma {:induction false} SpelledConcat(a: seq<string>, b: seq<string>)
    ensures Spelled(a + b) == Spelled(a) + Spelled(b)
  {
    if b == [] {
      assert a + b == a;
    } else {
      assert (a + b)[..|a + b| - 1] == a + b[..|b| - 1];
      SpelledConcat(a, b[..|b| - 1]);
    }
  }

  lemma {:induction false} SpelledOne(tok: string)
    ensures Spelled([tok]) == 1 + |tok|
  {
    assert [tok][..0] == [];
  }

  lemma {:induction false} SplitLength(s: string)
    ensures Spelled(Split(s)) == |s| + 1
    decreases |s|
  {
    var k := FirstSlash(s);
    if k == |s| {
      SpelledOne(s);
    } else {
      var rest := Split(s[k + 1..]);
      SplitLength(s[k + 1..]);
      SpelledOne(s[..k]);
      SpelledConcat([s[..k]], rest);
      assert Split(s) == [s[..k]] + rest;
    }
  }

  lemma {:induction false} JoinLength(stack: seq<string>)
    ensures |JoinAll(stack)| == Spelled(stack)
  {
    if stack != [] {
      JoinLength(stack[..|stack| - 1]);
    }
  }

  lemma {:induction false} WalkShortens(toks: seq<string>)
    ensures Spelled(WalkAll([], toks)) <= Spelled(toks)
  {
    if toks != [] {
      var p, tok := toks[..|toks| - 1], toks[|toks| - 1];
      WalkShortens(p);
      var stack := WalkAll([], p);
      if IsName(tok) {
        SpelledConcat(stack, [tok]);
        SpelledOne(tok);
      }
    }
  }

  lemma {:induction false} RootIsEmpty()
    ensures Location("") == []
  {
    SplitName("");
    assert [""][..0] == [];
    assert WalkAll([], [""][..0]) == [];
  }

  lemma {:induction false} FromRoot(rest: string)
    ensures Location("/" + rest) == WalkAll([], Split(rest))
  {
    RootIsEmpty();
    RelativeWalk("", rest);
    assert "" + "/" + rest == "/" + rest;
  }

  lemma {:induction false} LocationShortens(rest: string)
    ensures Spelled(Location("/" + rest)) <= 1 + |rest|
  {
    FromRoot(rest);
    WalkShortens(Split(rest));
    SplitLength(rest);
  }

  lemma {:induction false} RenderLength(stack: seq<string>)
    ensures |Render(stack)| == if stack == [] then 1 else Spelled(stack)
    ensures 0 < |Render(stack)|
  {
    JoinLength(stack);
  }

  /** The canonical spelling of an absolute path is never longer than the path. */
  lemma {:induction false} NormalizeShortens(path: string)
    requires path != "" && path[0] == '/'
    ensures 0 < |Normalize(path)| <= |path|
  {
    if Fits(path) {
      FittingRender(path);
      assert path == "/" + path[1..];
      LocationShortens(path[1..]);
      RenderLength(Location(path));
    }
  }
}
