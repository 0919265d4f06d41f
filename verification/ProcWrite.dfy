/** The kernel's side of the four /proc files: what one write does to the state, and what the
    files list. */
module ProcWrite {
  import opened Options
  import opened Text
  import opened Scan
  import opened SigTable

  const SIG_WRITE_MAX := 256
  const TRUST_WRITE_MAX := 192
  const PROTECT_WRITE_MAX := PATH_MAX + 16
  const POLICY_WRITE_MAX := 32

  type Trusted = map<string, string>

  datatype State = State(sigs: SigTable.Contents, trusted: Trusted, shielded: set<string>, failClosed: bool)

  // ----- words

  /** strcasecmp with a lower-case word. */
  predicate Says(s: string, word: string) {
    Lower(s) == word
  }

  function ParseAlgo(s: string): Option<Algo> {
    if Says(s, "md5") then Some(MD5)
    else if Says(s, "sha1") then Some(SHA1)
    else if Says(s, "sha256") then Some(SHA256)
    else None
  }

  // ----- signatures

  function SigCommand(c: SigTable.Contents, slot: string -> nat, f: seq<string>, allocOk: bool)
    : (r: (Status, SigTable.Contents))
  {
    if |f| < 3 || ParseAlgo(f[1]).None? then (EINVAL, c) else
    var algo := ParseAlgo(f[1]).value;
    if Says(f[0], "add") then
      if |f| < 4 then (EINVAL, c)
      else (AddStatus(c, algo, f[2], allocOk), Added(c, algo, f[2], f[3], allocOk))
    else if Says(f[0], "del") then (DelStatus(c, slot, algo, f[2]), Dropped(c, slot, algo, f[2]))
    else (EINVAL, c)
  }

  function SigWrite(c: SigTable.Contents, slot: string -> nat, payload: string, allocOk: bool)
    : (Status, SigTable.Contents)
  {
    if |payload| >= SIG_WRITE_MAX then (EINVAL, c)
    else SigCommand(c, slot, Fields(UpToNul(payload), [7, 7, 64], NAME_MAX, true), allocOk)
  }

  /** The write handler on the real table. */
  method SigProcWrite(t: SigTable.Table, payload: string, allocOk: bool) returns (r: Status)
    requires t.Valid()
    modifies t, t.index
    ensures t.Valid()
    ensures (r, t.index.contents) == SigWrite(old(t.index.contents), t.home, payload, allocOk)
  {
    if |payload| >= SIG_WRITE_MAX {
      return EINVAL;
    }
    var f := Fields(UpToNul(payload), [7, 7, 64], NAME_MAX, true);
    if |f| < 3 {
      return EINVAL;
    }
    var algo := ParseAlgo(f[1]);
    if algo.None? {
      return EINVAL;
    }
    if Says(f[0], "add") {
      if |f| < 4 {
        return EINVAL;
      }
      r := t.Add(algo.value, f[2], f[3], allocOk);
    } else if Says(f[0], "del") {
      r := t.Del(algo.value, f[2]);
    } else {
      r := EINVAL;
    }
  }

  // ----- trusted hashes

  function TrustAdd(m: Trusted, hex: string, name: string): (Status, Trusted) {
    if |hex| != HEX_MAX then (EINVAL, m)
    else if Lower(hex) in m then (EEXIST, m)
    else (Done, m[Lower(hex) := Cut(name, NAME_MAX)])
  }

  /** Every failure to add, a duplicate included, is reported as an invalid argument. */
  function TrustCommand(m: Trusted, f: seq<string>): (Status, Trusted) {
    if |f| < 2 then (EINVAL, m)
    else if Says(f[0], "add") then
      if |f| < 3 || TrustAdd(m, f[1], f[2]).0 != Done then (EINVAL, m) else TrustAdd(m, f[1], f[2])
    else if Says(f[0], "del") then
      if |f[1]| == HEX_MAX && Lower(f[1]) in m then (Done, m - {Lower(f[1])}) else (ENOENT, m)
    else (EINVAL, m)
  }

  function TrustWrite(m: Trusted, payload: string): (Status, Trusted) {
    if |payload| >= TRUST_WRITE_MAX then (EINVAL, m)
    else TrustCommand(m, Fields(UpToNul(payload), [7, 64], NAME_MAX, true))
  }

  // ----- protected paths

  function ProtectAdd(s: set<string>, path: string): (Status, set<string>) {
    if path == "" || path[0] != '/' || |path| >= PATH_MAX then (EINVAL, s)
    else if path in s then (EEXIST, s)
    else (Done, s + {path})
  }

  function FromBlank(s: string): string {
    if s == "" || s[0] == ' ' || s[0] == '\t' then s else FromBlank(s[1..])
  }

  function AfterBlanks(s: string): string {
    if s != "" && (s[0] == ' ' || s[0] == '\t') then AfterBlanks(s[1..]) else s
  }

  /** The text without its mandatory newline and an optional carriage return before it. */
  function Terminated(s: string): Option<string> {
    if s == "" || s[|s| - 1] != '\n' then None else
    var t := s[..|s| - 1];
    Some(if t != "" && t[|t| - 1] == '\r' then t[..|t| - 1] else t)
  }

  function ProtectWrite(s: set<string>, payload: string): (Status, set<string>) {
    if |payload| >= PROTECT_WRITE_MAX then (EINVAL, s) else
    var text := UpToNul(payload);
    var cmd := Fields(text, [7], 0, true);
    var path := Terminated(AfterBlanks(FromBlank(text)));
    if cmd == [] || path.None? || path.value == "" || |path.value| >= PATH_MAX then (EINVAL, s)
    else if Says(cmd[0], "add") then ProtectAdd(s, path.value)
    else if Says(cmd[0], "del") then
      if path.value in s then (Done, s - {path.value}) else (ENOENT, s)
    else (EINVAL, s)
  }

  // ----- policy

  function PolicyWrite(failClosed: bool, payload: string): (Status, bool) {
    if |payload| >= POLICY_WRITE_MAX then (EINVAL, failClosed) else
    var word := Terminated(UpToNul(payload));
    if word.None? then (EINVAL, failClosed)
    else if Says(word.value, "fail-open") then (Done, false)
    else if Says(word.value, "fail-closed") then (Done, true)
    else (EINVAL, failClosed)
  }

  // ----- what the state always looks like

  predicate NameOk(name: string) {
    IsRest(name, true) && NoNul(name) && |name| <= NAME_MAX
  }

  predicate HashOk(h: string) {
    |h| == HEX_MAX && IsWord(h, true) && NoNul(h) && Lower(h) == h
  }

  ghost predicate SigsOk(c: SigTable.Contents) {
    Canonical(c) && forall k :: k in c ==> NameOk(c[k].name)
  }

  ghost predicate TrustOk(m: Trusted) {
    forall h :: h in m ==> HashOk(h) && NameOk(m[h])
  }

  lemma {:induction false} AddKeeps(c: SigTable.Contents, algo: Algo, hex: string, name: string, allocOk: bool)
    requires SigsOk(c) && NameOk(name)
    ensures SigsOk(Added(c, algo, hex, name, allocOk))
  {
    if ValidHex(algo, hex) {
      StoredIsCanonical(algo, hex, name);
    }
  }

  lemma {:induction false} SigCommandKeeps(c: SigTable.Contents, slot: string -> nat, f: seq<string>, allocOk: bool)
    requires SigsOk(c) && (|f| > 3 ==> NameOk(f[3]))
    ensures SigsOk(SigCommand(c, slot, f, allocOk).1)
  {
    if |f| > 3 && ParseAlgo(f[1]).Some? {
      AddKeeps(c, ParseAlgo(f[1]).value, f[2], f[3], allocOk);
    }
  }

  /** No write, whatever its text, lets a name into the table that would not survive a reload. */
  lemma {:induction false} SigWriteKeeps(c: SigTable.Contents, slot: string -> nat, payload: string, allocOk: bool)
    requires SigsOk(c)
    ensures SigsOk(SigWrite(c, slot, payload, allocOk).1)
  {
    var text, widths := UpToNul(payload), [7, 7, 64];
    FieldsShape(text, widths, NAME_MAX, true);
    SigCommandKeeps(c, slot, Fields(text, widths, NAME_MAX, true), allocOk);
  }

  lemma {:induction false} LowerKeepsWords(h: string)
    requires IsField(h, HEX_MAX, true)
    ensures IsField(Lower(h), HEX_MAX, true)
  {
  }

  lemma {:induction false} TrustAddKeeps(m: Trusted, hex: string, name: string)
    requires TrustOk(m) && IsField(hex, HEX_MAX, true) && NameOk(name)
    ensures TrustOk(TrustAdd(m, hex, name).1)
  {
    LowerKeepsWords(hex);
    LowerTwice(hex);
  }

  lemma {:induction false} TrustCommandKeeps(m: Trusted, f: seq<string>)
    requires TrustOk(m) && (|f| > 1 ==> IsField(f[1], HEX_MAX, true)) && (|f| > 2 ==> NameOk(f[2]))
    ensures TrustOk(TrustCommand(m, f).1)
  {
    if |f| > 2 {
      TrustAddKeeps(m, f[1], f[2]);
    }
  }

  lemma {:induction false} TrustWriteKeeps(m: Trusted, payload: string)
    requires TrustOk(m)
    ensures TrustOk(TrustWrite(m, payload).1)
  {
    var text, widths := UpToNul(payload), [7, 64];
    FieldsShape(text, widths, NAME_MAX, true);
    TrustCommandKeeps(m, Fields(text, widths, NAME_MAX, true));
  }
}
