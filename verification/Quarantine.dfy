/** Moving a file into quarantine with every step allowed to fail, and the way back. */
module Quarantine {
  import opened FileSystem
  import opened MetaText
  import opened Options
  import opened Text
  import opened Seqs

  const COPY_SIZE := 65536
  const SUFFIX := ".quarantined"
  const META := ".meta"

  /** How one round of the copy loop goes: a read of at most 1 + n bytes, a failed read, or a
      write that takes only some of what was read. */
  datatype CopyEvent = Piece(n: nat) | ReadError | ShortWrite(n: nat)

  /** Which calls fail. A copy schedule that has run out copies the rest in full pieces; `metaLost` is a
      gap, from where and how long, that the ignored writes of the sidecar leave. */
  datatype Faults = Faults(
    dir: bool, stat: bool, link: bool, seek: bool, create: bool, copy: seq<CopyEvent>, copyCleanup: bool,
    metaOpen: bool, metaDup: bool, metaLost: Option<(nat, nat)>, metaTorn: Option<nat>, metaCleanup: bool,
    chmod: bool, drop: bool, recheck: bool, lstat: bool, unlink: bool)

  datatype Outcome = Refused | NoCopy | NotLocked | Kept | Removed

  // ----- names

  function BaseName(path: string): (base: string)
    ensures |base| <= |path| && '/' !in base
  {
    if path == "" then "" else
    var last := path[|path| - 1];
    if last == '/' then "" else BaseName(path[..|path| - 1]) + [last]
  }

  function DestName(dir: string, id: string): string {
    dir + "/" + id + SUFFIX
  }

  function EntryId(stamp: string, path: string): string {
    stamp + "_" + BaseName(path)
  }

  lemma {:induction false} BaseOfJoined(prefix: string, name: string)
    requires '/' !in name
    ensures BaseName(prefix + "/" + name) == name
  {
    var path := prefix + "/" + name;
    if name != "" {
      var rest := name[..|name| - 1];
      assert path[..|path| - 1] == prefix + "/" + rest;
      BaseOfJoined(prefix, rest);
      assert path[|path| - 1] == name[|name| - 1];
    }
  }

  lemma {:induction false} BaseOfPlain(name: string)
    requires '/' !in name
    ensures BaseName(name) == name
  {
    if name != "" {
      var rest := name[..|name| - 1];
      BaseOfPlain(rest);
      assert name == rest + [name[|name| - 1]];
    }
  }

  /** The copy of dir/name, or of a name alone, is dir/stamp_name.quarantined in the quarantine directory. */
  lemma {:induction false} CopyName(dir: string, stamp: string, prefix: string, name: string)
    requires '/' !in name
    ensures DestName(dir, EntryId(stamp, prefix + "/" + name)) == dir + "/" + stamp + "_" + name + ".quarantined"
    ensures DestName(dir, EntryId(stamp, name)) == dir + "/" + stamp + "_" + name + ".quarantined"
  {
    BaseOfJoined(prefix, name);
    BaseOfPlain(name);
    assert dir + "/" + (stamp + "_" + name) + SUFFIX == dir + "/" + stamp + "_" + name + SUFFIX;
  }

  /** The copy and its sidecar never take the name of the file itself. */
  lemma {:induction false} NamesDiffer(dir: string, stamp: string, path: string)
    requires '/' !in stamp
    ensures var dest := DestName(dir, EntryId(stamp, path)); dest != path && dest + META != path && dest != dest + META
  {
    var name := EntryId(stamp, path) + SUFFIX;
    var dest := DestName(dir, EntryId(stamp, path));
    assert dest == dir + "/" + name;
    BaseOfJoined(dir, name);
    assert dest + META == dir + "/" + (name + META);
    BaseOfJoined(dir, name + META);
  }

  // ----- what holds throughout

  ghost predicate Locked(d: Disk, dest: string, content: string) {
    && dest in d.names && d.names[dest] in d.inodes
    && var q := d.inodes[d.names[dest]]; q.content == content && q.mode == 0
  }

  /** The name `path` is as it was in `s`, or a locked copy exists. */
  ghost predicate Contained(s: Disk, d: Disk, path: string, dest: string, content: string) {
    (path in s.names ==> path in d.names && d.names[path] == s.names[path]) || Locked(d, dest, content)
  }

  /** From `s` to `d` nothing else changed: other names, other files, and the open file but for its mode. */
  ghost predicate Undisturbed(s: Disk, d: Disk, fd: nat, path: string, dest: string) {
    && d.names - {path, dest, dest + META} == s.names - {path, dest, dest + META}
    && (forall k :: k in s.inodes ==> k in d.inodes && (k != fd ==> d.inodes[k] == s.inodes[k]))
    && (fd in s.inodes ==> d.inodes[fd] == s.inodes[fd].(mode := d.inodes[fd].mode))
  }

  ghost predicate Careful(s: Disk, d: Disk, fd: nat, path: string, dest: string) {
    && fd in s.inodes
    && Contained(s, d, path, dest, s.inodes[fd].content)
    && Undisturbed(s, d, fd, path, dest)
  }

  ghost predicate AllCareful(s: Disk, past: seq<Disk>, from: nat, fd: nat, path: string, dest: string) {
    forall i :: from <= i < |past| ==> Careful(s, past[i], fd, path, dest)
  }

  // ----- the steps

  /** From `s` to `d` only a new file may have appeared at `dst`. */
  ghost predicate Adds(s: Disk, d: Disk, dst: string) {
    && d.names - {dst} == s.names - {dst}
    && forall k :: k in s.inodes ==> k in d.inodes && d.inodes[k] == s.inodes[k]
  }

  /** A file of the daemon's that holds the front of a text. */
  ghost predicate Partial(i: Inode, text: string) {
    i.content <= text && i == Inode(Regular, i.content, 384, 0, 0)
  }

  ghost predicate AllAdd(s: Disk, past: seq<Disk>, from: nat, dst: string) {
    forall i :: from <= i < |past| ==> Adds(s, past[i], dst)
  }

  lemma {:induction false} FreshFileAdds(s: Disk, dst: string, ino: nat, file: Inode)
    requires ino !in s.inodes
    ensures Adds(s, Disk(s.names[dst := ino], s.inodes[ino := file]), dst)
  {
    assert s.names[dst := ino] - {dst} == s.names - {dst};
  }

  lemma {:induction false} DroppedFileAdds(s: Disk, dst: string, ino: nat, file: Inode)
    requires ino !in s.inodes
    ensures Adds(s, Disk(s.names[dst := ino] - {dst}, s.inodes[ino := file]), dst)
  {
    assert s.names[dst := ino] - {dst} - {dst} == s.names - {dst};
  }

  /** The copy rounds take everything: no failed read and no short write before the end. */
  predicate Copies(left: nat, copy: seq<CopyEvent>)
    decreases |copy|
  {
    copy == [] ||
    match copy[0]
    case Piece(k) =>
      var n := Min(Min(COPY_SIZE, left), 1 + k);
      n == 0 || Copies(left - n, copy[1..])
    case ReadError => false
    case ShortWrite(k) =>
      var n := Min(COPY_SIZE, left);
      n == 0 || (n <= k && Copies(left - n, copy[1..]))
  }

  /** One write into the growing copy. */
  method WritePiece(v: Volume, ghost s: Disk, dst: string, content: string, ino: nat, upTo: nat, ghost from: nat)
    requires v.Valid() && ino !in s.inodes && ino in v.inodes && upTo <= |content|
    requires v.names == s.names[dst := ino] && v.inodes == s.inodes[ino := v.inodes[ino]]
    requires AllAdd(s, v.past, from, dst)
    modifies v
    ensures v.Valid() && v.names == old(v.names) && old(v.past) <= v.past && AllAdd(s, v.past, from, dst)
    ensures v.inodes == s.inodes[ino := Inode(Regular, content[..upTo], 384, 0, 0)]
  {
    FreshFileAdds(s, dst, ino, Inode(Regular, content[..upTo], 384, 0, 0));
    v.Change(ino, Inode(Regular, content[..upTo], 384, 0, 0));
    assert s.inodes[ino := old(v.inodes[ino])][ino := v.inodes[ino]] == s.inodes[ino := v.inodes[ino]];
  }

  /** The read and write rounds. */
  method CopyPieces(v: Volume, ghost s: Disk, dst: string, content: string, ino: nat, copy: seq<CopyEvent>)
    returns (ok: bool)
    requires v.Valid() && ino !in s.inodes
    requires v.names == s.names[dst := ino] && v.inodes == s.inodes[ino := Inode(Regular, "", 384, 0, 0)]
    modifies v
    ensures v.Valid() && v.names == old(v.names) && ino in v.inodes && v.inodes == s.inodes[ino := v.inodes[ino]]
    ensures old(v.past) <= v.past && AllAdd(s, v.past, |old(v.past)|, dst)
    ensures ok == Copies(|content|, copy)
    ensures Partial(v.inodes[ino], content) && (ok ==> v.inodes[ino].content == content)
  {
    var done: nat, next: nat := 0, 0;
    while true
      invariant v.Valid() && v.names == old(v.names) && done <= |content| && next <= |copy|
      invariant v.inodes == s.inodes[ino := Inode(Regular, content[..done], 384, 0, 0)]
      invariant old(v.past) <= v.past && AllAdd(s, v.past, |old(v.past)|, dst)
      invariant Copies(|content|, copy) == Copies(|content| - done, copy[next..])
      decreases |copy| - next, |content| - done
    {
      var n := Min(COPY_SIZE, |content| - done);
      var wrote := n;
      if next < |copy| {
        match copy[next] {
          case Piece(k) => n := Min(n, 1 + k); wrote := n;
          case ReadError => return false;
          case ShortWrite(k) => wrote := Min(n, k);
        }
        next := next + 1;
      }
      if n == 0 {
        break;
      }
      WritePiece(v, s, dst, content, ino, done + wrote, |old(v.past)|);
      if wrote != n {
        return false;
      }
      done := done + n;
    }
    assert content[..done] == content;
    ok := true;
  }

  /** A copy can be created under the name and completed. */
  predicate Copyable(s: Disk, fd: nat, dst: string, f: Faults)
    requires fd in s.inodes
  {
    !f.seek && !f.create && dst !in s.names && Copies(|s.inodes[fd].content|, f.copy)
  }

  /** After a failed copy: a part of it is left exactly when it was begun and could not be removed. */
  ghost predicate NoCopyLeft(s: Disk, d: Disk, fd: nat, dst: string, f: Faults)
    requires fd in s.inodes
  {
    && (dst in d.names <==> dst in s.names || (!f.seek && !f.create && f.copyCleanup))
    && (dst in s.names ==> d == s)
    && (dst in d.names && dst !in s.names ==>
          d.names[dst] in d.inodes && Partial(d.inodes[d.names[dst]], s.inodes[fd].content))
  }

  /** The fallback when linking fails: a copy read through the open file. */
  method CopyFd(v: Volume, fd: nat, dst: string, f: Faults) returns (ok: bool, ghost ino: nat)
    requires v.Valid() && fd in v.inodes
    modifies v
    ensures v.Valid()
    ensures old(v.past) <= v.past && AllAdd(old(v.Now()), v.past, |old(v.past)|, dst)
    ensures Adds(old(v.Now()), v.Now(), dst)
    ensures ok ==> dst !in old(v.names) && v.names == old(v.names)[dst := ino] && ino !in old(v.inodes)
    ensures ok ==> v.inodes == old(v.inodes)[ino := Inode(Regular, old(v.inodes)[fd].content, 384, 0, 0)]
    ensures ok == Copyable(old(v.Now()), fd, dst, f)
    ensures !ok ==> NoCopyLeft(old(v.Now()), v.Now(), fd, dst, f)
  {
    ghost var s := v.Now();
    var content := v.inodes[fd].content;
    ino := 0;
    if f.seek {
      return false, 0;
    }
    var made: nat;
    ok, made := v.Create(dst, 384, f.create);
    ino := made;
    if !ok {
      return;
    }
    FreshFileAdds(s, dst, made, Inode(Regular, "", 384, 0, 0));
    ok := CopyPieces(v, s, dst, content, made, f.copy);
    FreshFileAdds(s, dst, made, v.inodes[made]);
    if !ok {
      var gone := v.Unlink(dst, f.copyCleanup);
      DroppedFileAdds(s, dst, made, v.inodes[made]);
    }
  }

  /** What the sidecar records; without a successful fstat, restorable as root with mode 0600. */
  function Recorded(stat: Option<Inode>, path: string, rule: string, sha: string, now: int): (m: Meta)
    ensures m.uid < U32 && m.gid < U32
  {
    match stat
    case Some(i) => Meta(path, i.mode % MODE_BITS, i.uid, i.gid, now, rule, sha)
    case None => Meta(path, DEFAULT_MODE, 0, 0, now, rule, sha)
  }

  /** What the formatted writes hand over of the record. Their results are ignored, so a flush that
      fails on the way loses a part without a failing close. */
  function Reached(text: string, f: Faults): string {
    match f.metaLost
    case None => text
    case Some(gap) => text[..Min(gap.0, |text|)] + text[Min(gap.0 + gap.1, |text|)..]
  }

  /** A sidecar that counts as written is whole if and only if no part of it was lost on the way. */
  lemma {:induction false} WholeUnlessLost(text: string, f: Faults)
    ensures Reached(text, f) == text
      <==> f.metaLost.None? || f.metaLost.value.1 == 0 || f.metaLost.value.0 >= |text|
  {
    if f.metaLost.Some? {
      var gap := f.metaLost.value;
      assert |Reached(text, f)| == |text| - (Min(gap.0 + gap.1, |text|) - Min(gap.0, |text|));
      if gap.1 == 0 {
        assert text[..Min(gap.0, |text|)] + text[Min(gap.0, |text|)..] == text;
      } else if gap.0 >= |text| {
        assert text[..|text|] + text[|text|..] == text;
      }
    }
  }

  /** The sidecar is created, written and closed. */
  predicate Saves(s: Disk, name: string, f: Faults) {
    !f.metaOpen && !f.metaDup && f.metaTorn.None? && name !in s.names
  }

  /** What stands under the sidecar's name: what was there before, the whole record, or a torn one
      that was begun and could not be removed; nothing exactly otherwise. */
  ghost predicate SidecarLeft(s: Disk, d: Disk, name: string, text: string, f: Faults) {
    && (name in d.names <==> name in s.names || (!f.metaOpen && (Saves(s, name, f) || f.metaCleanup)))
    && (name in s.names ==> d.names[name] == s.names[name])
    && (name in d.names && name !in s.names ==>
          && d.names[name] in d.inodes && d.names[name] !in s.inodes
          && Partial(d.inodes[d.names[name]], Reached(text, f))
          && (Saves(s, name, f) ==> d.inodes[d.names[name]].content == Reached(text, f)))
  }

  /** Writes and closes the new file; a failed close leaves the front of what was handed over. */
  method FillSidecar(v: Volume, ghost s: Disk, name: string, made: nat, text: string, f: Faults) returns (ok: bool)
    requires v.Valid() && made !in s.inodes && v.names == s.names[name := made]
    requires v.inodes == s.inodes[made := Inode(Regular, "", 384, 0, 0)]
    modifies v
    ensures v.Valid() && v.names == old(v.names) && made in v.inodes && v.inodes == s.inodes[made := v.inodes[made]]
    ensures old(v.past) <= v.past && AllAdd(s, v.past, |old(v.past)|, name) && Adds(s, v.Now(), name)
    ensures ok == (!f.metaDup && f.metaTorn.None?)
    ensures Partial(v.inodes[made], Reached(text, f)) && (ok ==> v.inodes[made].content == Reached(text, f))
  {
    ok := !f.metaDup && f.metaTorn.None?;
    if !f.metaDup {
      var out := Reached(text, f);
      WritePiece(v, s, name, out, made, if f.metaTorn.Some? then Min(f.metaTorn.value, |out|) else |out|, |v.past|);
      assert out[..|out|] == out;
    }
    FreshFileAdds(s, name, made, v.inodes[made]);
  }

  method WriteSidecar(v: Volume, name: string, text: string, f: Faults) returns (ok: bool, ghost ino: nat)
    requires v.Valid()
    modifies v
    ensures v.Valid()
    ensures old(v.past) <= v.past && AllAdd(old(v.Now()), v.past, |old(v.past)|, name)
    ensures Adds(old(v.Now()), v.Now(), name)
    ensures ok ==> name !in old(v.names) && v.names == old(v.names)[name := ino] && ino !in old(v.inodes)
    ensures ok ==> v.inodes == old(v.inodes)[ino := Inode(Regular, Reached(text, f), 384, 0, 0)]
    ensures ok == Saves(old(v.Now()), name, f)
    ensures SidecarLeft(old(v.Now()), v.Now(), name, text, f)
  {
    ghost var s := v.Now();
    var made: nat;
    ok, made := v.Create(name, 384, f.metaOpen);
    ino := made;
    if !ok {
      return;
    }
    FreshFileAdds(s, name, made, Inode(Regular, "", 384, 0, 0));
    ok := FillSidecar(v, s, name, made, text, f);
    if !ok {
      DroppedFileAdds(s, name, made, v.inodes[made]);
      var gone := v.Unlink(name, f.metaCleanup);
    }
  }

  /** Nothing but the two quarantine names and the open file's mode differs from `s`. */
  ghost predicate Held(s: Disk, d: Disk, fd: nat, path: string, dest: string) {
    && fd in s.inodes && Undisturbed(s, d, fd, path, dest)
    && (path in s.names <==> path in d.names) && (path in s.names ==> d.names[path] == s.names[path])
  }

  lemma {:induction false} AddsHolds(s: Disk, d: Disk, e: Disk, fd: nat, path: string, dest: string, name: string)
    requires Held(s, d, fd, path, dest) && Adds(d, e, name)
    requires name in {dest, dest + META} && name != path
    ensures Held(s, e, fd, path, dest)
  {
    var three := {path, dest, dest + META};
    assert e.names - three == e.names - {name} - three;
    assert d.names - three == d.names - {name} - three;
    assert (path in e.names - {name}) == (path in d.names - {name});
  }

  lemma {:induction false} AllAddCareful(s: Disk, d: Disk, past: seq<Disk>, from: nat, fd: nat, path: string,
                                         dest: string, name: string)
    requires Held(s, d, fd, path, dest) && AllAdd(d, past, from, name)
    requires name in {dest, dest + META} && name != path
    ensures AllCareful(s, past, from, fd, path, dest)
  {
    forall i | from <= i < |past| ensures Careful(s, past[i], fd, path, dest) {
      AddsHolds(s, d, past[i], fd, path, dest, name);
    }
  }

  predicate Linkable(s: Disk, fd: nat, dest: string, f: Faults) {
    !f.link && dest !in s.names && fd in s.names.Values
  }

  /** Stage one: the copy, as a second name or as a new file. */
  method MakeCopy(v: Volume, fd: nat, path: string, dest: string, f: Faults)
    returns (ok: bool, linked: bool)
    requires v.Valid() && fd in v.inodes && dest != path
    modifies v
    ensures v.Valid() && old(v.past) <= v.past
    ensures AllCareful(old(v.Now()), v.past, |old(v.past)|, fd, path, dest)
    ensures Held(old(v.Now()), v.Now(), fd, path, dest)
    ensures ok ==> dest !in old(v.names) && dest in v.names && v.names == old(v.names)[dest := v.names[dest]]
    ensures ok && linked ==> v.names[dest] == fd && v.inodes == old(v.inodes)
    ensures ok && !linked ==> v.names[dest] !in old(v.inodes)
    ensures ok && !linked ==>
      v.inodes == old(v.inodes)[v.names[dest] := Inode(Regular, old(v.inodes)[fd].content, 384, 0, 0)]
    ensures linked == Linkable(old(v.Now()), fd, dest, f)
    ensures ok == (linked || Copyable(old(v.Now()), fd, dest, f))
    ensures !ok ==> NoCopyLeft(old(v.Now()), v.Now(), fd, dest, f)
    ensures !ok ==> v.names - {dest} == old(v.names) - {dest}
  {
    ghost var s := v.Now();
    linked := v.Link(fd, dest, f.link);
    ok := linked;
    if linked {
      assert Adds(s, v.Now(), dest) by {
        assert s.names[dest := fd] - {dest} == s.names - {dest};
      }
      AddsHolds(s, s, v.Now(), fd, path, dest, dest);
      return;
    }
    ghost var ino;
    ok, ino := CopyFd(v, fd, dest, f);
    AllAddCareful(s, s, v.past, |old(v.past)|, fd, path, dest, dest);
    AddsHolds(s, s, v.Now(), fd, path, dest, dest);
  }

  lemma {:induction false} ModeHolds(s: Disk, d: Disk, e: Disk, fd: nat, path: string, dest: string, q: nat)
    requires Held(s, d, fd, path, dest) && q in d.inodes && (q == fd || q !in s.inodes)
    requires e == Disk(d.names, d.inodes[q := d.inodes[q].(mode := 0)])
    ensures Held(s, e, fd, path, dest)
  {
  }

  lemma {:induction false} LessHolds(s: Disk, d: Disk, fd: nat, path: string, dest: string)
    requires Held(s, d, fd, path, dest) && dest != path
    ensures Held(s, Disk(d.names - {dest}, d.inodes), fd, path, dest)
  {
    var three := {path, dest, dest + META};
    assert d.names - {dest} - three == d.names - three;
  }

  lemma {:induction false} RemovalIsCareful(s: Disk, d: Disk, fd: nat, path: string, dest: string)
    requires Held(s, d, fd, path, dest) && dest != path && Locked(d, dest, s.inodes[fd].content)
    ensures Careful(s, Disk(d.names - {path}, d.inodes), fd, path, dest)
  {
    var three := {path, dest, dest + META};
    assert d.names - {path} - three == d.names - three;
  }

  /** The copy, of either kind, locked under its own name. */
  ghost predicate CopyStands(s: Disk, d: Disk, fd: nat, dest: string, linked: bool) {
    && fd in s.inodes && dest !in s.names && dest in d.names && d.names[dest] in d.inodes
    && (if linked then d.names[dest] == fd && d.inodes[fd] == s.inodes[fd].(mode := 0)
        else d.names[dest] !in s.inodes
             && d.inodes[d.names[dest]] == Inode(Regular, s.inodes[fd].content, 0, 0, 0))
  }

  /** The state a completed quarantine leaves: the name gone, a locked copy of the content, and
      the sidecar when it could be written. */
  ghost predicate Quarantined(s: Disk, d: Disk, fd: nat, path: string, dest: string, linked: bool, saved: bool,
                              text: string)
  {
    && path in s.names && s.names[path] == fd && path !in d.names
    && CopyStands(s, d, fd, dest, linked)
    && Undisturbed(s, d, fd, path, dest)
    && (saved ==> Sidecar(s, d, dest, text))
  }

  ghost predicate Sidecar(s: Disk, d: Disk, dest: string, text: string)
    requires dest in d.names
  {
    && dest + META !in s.names && dest + META in d.names
    && var m := d.names[dest + META];
    m != d.names[dest] && m !in s.inodes && m in d.inodes && d.inodes[m] == Inode(Regular, text, 384, 0, 0)
  }

  /** The copy before it is locked: the file itself under a second name, or a file of the daemon's. */
  function Unlocked(file: Inode, linked: bool): Inode {
    if linked then file else Inode(Regular, file.content, 384, 0, 0)
  }

  /** After a failed lock: the whole copy, not locked, is left exactly when it could not be removed. */
  ghost predicate UnlockedLeft(s: Disk, d: Disk, fd: nat, dest: string, linked: bool, f: Faults)
    requires fd in s.inodes
  {
    && (dest in d.names <==> f.drop)
    && (dest in d.names ==> d.names[dest] in d.inodes)
    && (dest in d.names ==> d.inodes[d.names[dest]] == Unlocked(s.inodes[fd], linked))
  }

  /** Takes all permissions off the copy, or gives it up. */
  method Lock(v: Volume, ghost s: Disk, fd: nat, path: string, dest: string, f: Faults) returns (locked: bool)
    requires v.Valid() && fd in s.inodes && dest in v.names && dest != path && Held(s, v.Now(), fd, path, dest)
    requires v.names[dest] == fd || v.names[dest] !in s.inodes
    requires v.inodes[v.names[dest]].content == s.inodes[fd].content
    modifies v
    ensures v.Valid() && old(v.past) <= v.past && AllCareful(s, v.past, |old(v.past)|, fd, path, dest)
    ensures Held(s, v.Now(), fd, path, dest) && locked == !f.chmod
    ensures v.names == if !locked && !f.drop then old(v.names) - {dest} else old(v.names)
    ensures v.inodes == if locked
      then old(v.inodes)[v.names[dest] := old(v.inodes)[v.names[dest]].(mode := 0)] else old(v.inodes)
  {
    ghost var e := v.Now();
    locked := !f.chmod;
    if f.chmod {
      LessHolds(s, e, fd, path, dest);
      var dropped := v.Unlink(dest, f.drop);
    } else {
      var q := v.names[dest];
      ModeHolds(s, e, Disk(e.names, e.inodes[q := e.inodes[q].(mode := 0)]), fd, path, dest, q);
      v.Change(q, v.inodes[q].(mode := 0));
    }
  }

  /** Stage two: the sidecar, then the lock on the copy. */
  method Secure(v: Volume, ghost s: Disk, fd: nat, path: string, dest: string, linked: bool, text: string, f: Faults)
    returns (locked: bool, saved: bool)
    requires v.Valid() && fd in s.inodes && dest !in s.names && dest in v.names
    requires dest != path && dest + META != path && dest + META != dest
    requires v.names == s.names[dest := v.names[dest]] && Held(s, v.Now(), fd, path, dest)
    requires linked ==> v.names[dest] == fd && v.inodes == s.inodes
    requires !linked ==> v.names[dest] !in s.inodes
    requires !linked ==> v.inodes == s.inodes[v.names[dest] := Inode(Regular, s.inodes[fd].content, 384, 0, 0)]
    modifies v
    ensures v.Valid() && old(v.past) <= v.past && AllCareful(s, v.past, |old(v.past)|, fd, path, dest)
    ensures Held(s, v.Now(), fd, path, dest)
    ensures locked ==> dest in v.names && v.names[dest] == old(v.names)[dest]
    ensures locked ==> v.inodes[v.names[dest]] == old(v.inodes)[v.names[dest]].(mode := 0)
    ensures locked ==> Locked(v.Now(), dest, s.inodes[fd].content)
    ensures locked && saved ==> Sidecar(s, v.Now(), dest, Reached(text, f))
    ensures locked == !f.chmod && saved == Saves(s, dest + META, f)
    ensures SidecarLeft(s, v.Now(), dest + META, text, f)
    ensures !locked ==> UnlockedLeft(s, v.Now(), fd, dest, linked, f)
  {
    ghost var d := v.Now();
    var q := v.names[dest];
    ghost var ino;
    saved, ino := WriteSidecar(v, dest + META, text, f);
    AllAddCareful(s, d, v.past, |old(v.past)|, fd, path, dest, dest + META);
    AddsHolds(s, d, v.Now(), fd, path, dest, dest + META);
    assert dest in v.names - {dest + META} && v.names[dest] == q;
    locked := Lock(v, s, fd, path, dest, f);
  }

  /** Every call works, except that linking may fail and the copy stand in for it. */
  predicate NoFaults(f: Faults) {
    && !f.dir && !f.stat && !f.seek && !f.create && f.copy == []
    && !f.metaOpen && !f.metaDup && f.metaLost.None? && f.metaTorn.None?
    && !f.chmod && !f.recheck && !f.lstat && !f.unlink
  }

  /** The name is the open file's, and the two quarantine names are free. */
  ghost predicate Ready(s: Disk, fd: nat, path: string, dest: string) {
    && path in s.names && s.names[path] == fd
    && |dest| < PATH_MAX && dest !in s.names && dest + META !in s.names
  }

  predicate Withdraws(s: Disk, fd: nat, path: string, f: Faults) {
    !f.recheck && !f.lstat && !f.unlink && path in s.names && s.names[path] == fd
  }

  /** How a quarantine that was not refused ends. */
  function OutcomeOf(s: Disk, fd: nat, path: string, dest: string, f: Faults): Outcome
    requires fd in s.inodes
  {
    if !Linkable(s, fd, dest, f) && !Copyable(s, fd, dest, f) then NoCopy
    else if f.chmod then NotLocked
    else if Withdraws(s, fd, path, f) then Removed
    else Kept
  }

  /** What each outcome leaves under the two quarantine names. */
  ghost predicate Leaves(s: Disk, d: Disk, fd: nat, path: string, dest: string, text: string, f: Faults)
    requires fd in s.inodes
  {
    match OutcomeOf(s, fd, path, dest, f)
    case NoCopy =>
      && NoCopyLeft(s, d, fd, dest, f)
      && (dest + META in d.names <==> dest + META in s.names)
    case NotLocked =>
      UnlockedLeft(s, d, fd, dest, Linkable(s, fd, dest, f), f) && SidecarLeft(s, d, dest + META, text, f)
    case _ =>
      CopyStands(s, d, fd, dest, Linkable(s, fd, dest, f)) && SidecarLeft(s, d, dest + META, text, f)
  }

  /** The name is taken away only when it still names the open file. */
  method RemoveOriginal(v: Volume, ghost s: Disk, fd: nat, path: string, dest: string, f: Faults) returns (gone: bool)
    requires v.Valid() && fd in s.inodes && dest != path
    requires Held(s, v.Now(), fd, path, dest) && Locked(v.Now(), dest, s.inodes[fd].content)
    modifies v
    ensures v.Valid() && old(v.past) <= v.past && AllCareful(s, v.past, |old(v.past)|, fd, path, dest)
    ensures v.inodes == old(v.inodes)
    ensures v.names == if gone then old(v.names) - {path} else old(v.names)
    ensures gone ==> path in s.names && s.names[path] == fd
    ensures gone == Withdraws(s, fd, path, f)
  {
    if f.recheck || f.lstat || path !in v.names || v.names[path] != fd {
      return false;
    }
    RemovalIsCareful(s, v.Now(), fd, path, dest);
    gone := v.Unlink(path, f.unlink);
  }

  lemma {:induction false} RemovalCompletes(s: Disk, d: Disk, fd: nat, path: string, dest: string, linked: bool,
                                          saved: bool, text: string)
    requires CopyStands(s, d, fd, dest, linked) && Held(s, d, fd, path, dest) && (saved ==> Sidecar(s, d, dest, text))
    requires path in s.names && s.names[path] == fd && dest != path && dest + META != path
    ensures Quarantined(s, Disk(d.names - {path}, d.inodes), fd, path, dest, linked, saved, text)
  {
    RemovalIsCareful(s, d, fd, path, dest);
  }

  lemma {:induction false} CarefulJoin(s: Disk, p: seq<Disk>, q: seq<Disk>, from: nat, fd: nat, path: string,
                                       dest: string)
    requires p <= q && AllCareful(s, p, from, fd, path, dest) && AllCareful(s, q, |p|, fd, path, dest)
    ensures AllCareful(s, q, from, fd, path, dest)
  {
    forall i | from <= i < |q| ensures Careful(s, q[i], fd, path, dest) {
      assert i < |p| ==> q[i] == p[i];
    }
  }

  /** The copy as it stands before the sidecar. */
  ghost predicate CopyMade(s: Disk, d: Disk, fd: nat, dest: string, linked: bool) {
    && fd in s.inodes && dest !in s.names && dest in d.names && d.names == s.names[dest := d.names[dest]]
    && (if linked then d.names[dest] == fd && d.inodes == s.inodes
        else d.names[dest] !in s.inodes && d.inodes == s.inodes[d.names[dest] := Unlocked(s.inodes[fd], false)])
  }

  /** Sidecar, lock and removal, on a finished copy. */
  method FinishMove(v: Volume, ghost s: Disk, fd: nat, path: string, dest: string, linked: bool, text: string,
                    f: Faults)
    returns (r: Outcome, saved: bool)
    requires v.Valid() && dest != path && dest + META != path && dest + META != dest
    requires CopyMade(s, v.Now(), fd, dest, linked) && Held(s, v.Now(), fd, path, dest)
    modifies v
    ensures v.Valid() && old(v.past) <= v.past && AllCareful(s, v.past, |old(v.past)|, fd, path, dest)
    ensures r == if f.chmod then NotLocked else if Withdraws(s, fd, path, f) then Removed else Kept
    ensures saved == Saves(s, dest + META, f) && SidecarLeft(s, v.Now(), dest + META, text, f)
    ensures r == NotLocked ==> UnlockedLeft(s, v.Now(), fd, dest, linked, f)
    ensures r != NotLocked ==> CopyStands(s, v.Now(), fd, dest, linked)
    ensures r == Removed ==> Quarantined(s, v.Now(), fd, path, dest, linked, saved, Reached(text, f))
    ensures r != Removed ==> Held(s, v.Now(), fd, path, dest)
  {
    var locked, gone;
    locked, saved := Secure(v, s, fd, path, dest, linked, text, f);
    if !locked {
      return NotLocked, saved;
    }
    ghost var p, d := v.past, v.Now();
    gone := RemoveOriginal(v, s, fd, path, dest, f);
    CarefulJoin(s, p, v.past, |old(v.past)|, fd, path, dest);
    r := if gone then Removed else Kept;
    if gone {
      assert v.Now() == Disk(d.names - {path}, d.inodes);
      RemovalCompletes(s, d, fd, path, dest, linked, saved, Reached(text, f));
    }
  }

  /** Copy, sidecar, lock, removal, in that order. */
  method MoveTo(v: Volume, fd: nat, path: string, dest: string, text: string, f: Faults)
    returns (r: Outcome, linked: bool, saved: bool)
    requires v.Valid() && fd in v.inodes && dest != path && dest + META != path
    modifies v
    ensures v.Valid() && old(v.past) <= v.past
    ensures AllCareful(old(v.Now()), v.past, |old(v.past)|, fd, path, dest)
    ensures r == Removed ==> Quarantined(old(v.Now()), v.Now(), fd, path, dest, linked, saved, Reached(text, f))
    ensures r != Removed ==> Held(old(v.Now()), v.Now(), fd, path, dest)
    ensures r == OutcomeOf(old(v.Now()), fd, path, dest, f) && linked == Linkable(old(v.Now()), fd, dest, f)
    ensures saved == (r != NoCopy && Saves(old(v.Now()), dest + META, f))
    ensures Leaves(old(v.Now()), v.Now(), fd, path, dest, text, f)
    ensures NoFaults(f) && Ready(old(v.Now()), fd, path, dest) ==> r == Removed && saved && linked == !f.link
  {
    ghost var s := v.Now();
    saved := false;
    var ok;
    ok, linked := MakeCopy(v, fd, path, dest, f);
    if !ok {
      assert dest + META in v.names - {dest} <==> dest + META in s.names - {dest};
      return NoCopy, linked, saved;
    }
    ghost var p := v.past;
    assert CopyMade(s, v.Now(), fd, dest, linked);
    r, saved := FinishMove(v, s, fd, path, dest, linked, text, f);
    CarefulJoin(s, p, v.past, |old(v.past)|, fd, path, dest);
  }

  /** Quarantines the open file `fd`, found at `path`. In every state on the way the name is
      untouched or a locked copy of the scanned content exists, and nothing else changes. */
  method QuarantineFile(v: Volume, fd: nat, path: string, rule: string, sha: string,
                        dir: string, stamp: string, now: int, f: Faults)
    returns (r: Outcome, linked: bool, saved: bool, ghost dest: string, ghost text: string)
    requires v.Valid() && fd in v.inodes && '/' !in stamp
    modifies v
    ensures v.Valid() && old(v.past) <= v.past
    ensures dest == DestName(dir, EntryId(stamp, path))
    ensures text == PrintMeta(Recorded(if f.stat then None else Some(old(v.inodes)[fd]), path, rule, sha, now))
    ensures AllCareful(old(v.Now()), v.past, |old(v.past)|, fd, path, dest)
    ensures r == Removed ==> Quarantined(old(v.Now()), v.Now(), fd, path, dest, linked, saved, Reached(text, f))
    ensures r != Removed ==> Held(old(v.Now()), v.Now(), fd, path, dest)
    ensures r == Refused <==> f.dir || |dest| >= 4096
    ensures r != Refused ==> r == OutcomeOf(old(v.Now()), fd, path, dest, f)
    ensures r != Refused ==> linked == Linkable(old(v.Now()), fd, dest, f)
    ensures r != Refused ==> saved == (r != NoCopy && Saves(old(v.Now()), dest + META, f))
    ensures r != Refused ==> Leaves(old(v.Now()), v.Now(), fd, path, dest, text, f)
    ensures NoFaults(f) && Ready(old(v.Now()), fd, path, dest) ==> r == Removed && saved && linked == !f.link
    ensures r == Refused ==> v.Now() == old(v.Now())
    ensures r == Removed ==> path !in v.names && dest in v.names && v.names[dest] in v.inodes
    ensures r == Removed ==> var copy := v.inodes[v.names[dest]];
      copy.mode == 0 && copy.content == old(v.inodes)[fd].content
  {
    var name := DestName(dir, EntryId(stamp, path));
    var stat := if f.stat then None else Some(v.inodes[fd]);
    var record := PrintMeta(Recorded(stat, path, rule, sha, now));
    dest, text := name, record;
    if f.dir || |name| >= PATH_MAX {
      return Refused, false, false, dest, text;
    }
    NamesDiffer(dir, stamp, path);
    r, linked, saved := MoveTo(v, fd, path, name, record, f);
  }

  // ----- the way back

  datatype RestoreFaults = RestoreFaults(meta: bool, open: bool, stat: bool, chmod: bool, chown: bool, rename: bool,
                                         unlink: bool)

  datatype Answer =
    BadId | BadPath | NoMeta | NotFound | NotRegular | Occupied | ChmodFailed | RenameFailed | Restored

  predicate ValidId(id: string) {
    id != "" && '/' !in id && id != "." && id != ".." && |id| < PATH_MAX - 32
  }

  function NewId(old_: Id, asked: nat): Id {
    if asked % U32 == NO_ID then old_ else asked % U32
  }

  /** The file as it is handed back: the recorded mode and owner, less what changing an owner drops. */
  function HandedBack(i: Inode, m: Meta, chownOk: bool): Inode {
    var mode := m.mode % MODE_BITS;
    if chownOk
    then i.(mode := DropSetIds(mode), uid := NewId(i.uid, m.uid), gid := NewId(i.gid, m.gid))
    else i.(mode := mode)
  }

  /** What an entry needs to be restorable. */
  ghost predicate Restorable(d: Disk, dir: string, id: string, m: Meta) {
    var dest := DestName(dir, id);
    && ValidId(id) && |dest| < 2 * PATH_MAX && |dest + META| < 2 * PATH_MAX + 8
    && dest + META in d.names && d.names[dest + META] in d.inodes
    && MetaOf(d.inodes[d.names[dest + META]].content) == Some(m)
    && dest in d.names && d.names[dest] in d.inodes && d.inodes[d.names[dest]].kind == Regular
    && m.path !in d.names
  }

  /** The state a restore leaves. */
  ghost predicate PutBack(d: Disk, e: Disk, dest: string, m: Meta, chownOk: bool, cleaned: bool) {
    && dest in d.names && d.names[dest] in d.inodes
    && var q := d.names[dest];
    && e.inodes == d.inodes[q := HandedBack(d.inodes[q], m, chownOk)]
    && var moved := (d.names - {dest})[m.path := q];
    e.names == if cleaned then moved - {dest + META} else moved
  }

  /** The recorded mode and owner, the recorded name, and the sidecar removed. */
  method HandOver(v: Volume, dest: string, m: Meta, f: RestoreFaults) returns (r: Answer)
    requires v.Valid() && dest in v.names && m.path !in v.names
    modifies v
    ensures v.Valid() && r in {ChmodFailed, RenameFailed, Restored}
    ensures r == Restored ==> PutBack(old(v.Now()), v.Now(), dest, m, !f.chown, !f.unlink)
    ensures r == ChmodFailed ==> f.chmod && v.Now() == old(v.Now())
    ensures r == RenameFailed ==> f.rename && v.names == old(v.names)
    ensures r == RenameFailed ==>
      v.inodes == old(v.inodes)[v.names[dest] := HandedBack(old(v.inodes)[v.names[dest]], m, !f.chown)]
  {
    var q := v.names[dest];
    if f.chmod {
      return ChmodFailed;
    }
    v.Change(q, v.inodes[q].(mode := m.mode % MODE_BITS));
    if !f.chown {
      var i := v.inodes[q];
      v.Change(q, i.(mode := DropSetIds(i.mode), uid := NewId(i.uid, m.uid), gid := NewId(i.gid, m.gid)));
    }
    var moved := v.Rename(dest, m.path, f.rename);
    if !moved {
      return RenameFailed;
    }
    var cleaned := v.Unlink(dest + META, f.unlink);
    r := Restored;
  }

  method RestoreFile(v: Volume, dir: string, id: string, f: RestoreFaults) returns (r: Answer, ghost m: Meta)
    requires v.Valid()
    modifies v
    ensures v.Valid()
    ensures r in {Restored, RenameFailed} ==> Restorable(old(v.Now()), dir, id, m)
    ensures r == Restored ==> PutBack(old(v.Now()), v.Now(), DestName(dir, id), m, !f.chown, !f.unlink)
    ensures !f.meta && !f.open && !f.stat && !f.chmod && !f.rename ==>
      (r == Restored <==> exists n :: Restorable(old(v.Now()), dir, id, n))
    ensures r == RenameFailed ==> v.names == old(v.names)
    ensures r !in {RenameFailed, Restored} ==> v.Now() == old(v.Now())
    ensures r == BadId <==> id == "" || '/' in id || id == "." || id == ".." || |id| >= 4064
  {
    m := START;
    if !ValidId(id) {
      return BadId, m;
    }
    var dest := DestName(dir, id);
    if |dest| >= 2 * PATH_MAX || |dest + META| >= 2 * PATH_MAX + 8 {
      return BadPath, m;
    }
    if f.meta || dest + META !in v.names {
      return NoMeta, m;
    }
    var read := ReadMeta(v.inodes[v.names[dest + META]].content);
    if read.None? {
      return NoMeta, m;
    }
    m := read.value;
    if f.open || dest !in v.names || v.inodes[v.names[dest]].kind == Symlink {
      return NotFound, m;
    }
    if f.stat || v.inodes[v.names[dest]].kind != Regular {
      return NotRegular, m;
    }
    if read.value.path in v.names {
      return Occupied, m;
    }
    assert Restorable(v.Now(), dir, id, m);
    r := HandOver(v, dest, read.value, f);
  }

  // ----- there and back

  /** The scan's facts fit the sidecar's fields. */
  predicate Fits(file: Inode, path: string, rule: string, sha: string, now: int) {
    && file.kind == Regular && file.uid != NO_ID && file.gid != NO_ID
    && Sized(path) && Fields(Recorded(Some(file), path, rule, sha, now))
  }

  /** A completed quarantine can be undone exactly when the path has no newline: the sidecar
      then names the original path, which is free. */
  lemma {:induction false} WhereItGoes(s: Disk, d: Disk, fd: nat, path: string, rule: string, sha: string, now: int,
                                       dir: string, id: string, linked: bool, text: string)
    requires fd in s.inodes && Fits(s.inodes[fd], path, rule, sha, now)
    requires text == PrintMeta(Recorded(Some(s.inodes[fd]), path, rule, sha, now))
    requires Quarantined(s, d, fd, path, DestName(dir, id), linked, true, text)
    requires ValidId(id) && |DestName(dir, id)| < PATH_MAX
    ensures NoNewline(path) ==> Restorable(d, dir, id, Recorded(Some(s.inodes[fd]), path, rule, sha, now))
    ensures forall m :: Restorable(d, dir, id, m) ==> (m.path == path <==> NoNewline(path))
  {
    var record := Recorded(Some(s.inodes[fd]), path, rule, sha, now);
    MetaRoundTrip(record);
    PathHasNoNewline(text);
  }

  lemma {:induction false} NamesBack(s: map<string, nat>, d: map<string, nat>, path: string, dest: string,
                                     meta: string, q: nat)
    requires dest !in s && meta !in s && path in s && path != dest && path != meta
    requires d - {path, dest, meta} == s - {path, dest, meta}
    ensures (d - {dest})[path := q] - {meta} == s[path := q]
  {
    var e := (d - {dest})[path := q] - {meta};
    forall n ensures (n in e <==> n in s) && (n in s && n != path ==> e[n] == s[n]) {
      assert n in d - {path, dest, meta} <==> n in s - {path, dest, meta};
    }
  }

  lemma {:induction false} NewIdIs(was: Id, asked: Id)
    ensures NewId(was, asked) == if asked == 0xFFFF_FFFF then was else asked
  {
  }

  /** A file that was handed back comes with the recorded mode, owner and group; without the owner if
      changing it failed. Set-id bits are lost only to a change of owner. */
  lemma {:induction false} HandedBackAs(i: Inode, m: Meta, chownOk: bool)
    requires m.mode < 4096 && m.uid < 0x1_0000_0000 && m.gid < 0x1_0000_0000
    ensures var b := HandedBack(i, m, chownOk);
      && b.content == i.content && b.kind == i.kind && b.mode % 1024 == m.mode % 1024
      && (if chownOk
          then b.uid == (if m.uid == 0xFFFF_FFFF then i.uid else m.uid)
               && b.gid == (if m.gid == 0xFFFF_FFFF then i.gid else m.gid) && b.mode / 2048 == 0
          else b.uid == i.uid && b.gid == i.gid && b.mode == m.mode)
  {
    BitsDropped(m.mode);
    NewIdIs(i.uid, m.uid);
    NewIdIs(i.gid, m.gid);
    assert m.mode % MODE_BITS == m.mode;
  }

  /** From the locked copy, of either kind, to the file as it was. */
  lemma {:induction false} FileBack(was: Inode, copy: Inode, path: string, rule: string, sha: string, now: int)
    requires Fits(was, path, rule, sha, now) && copy.content == was.content && copy.kind == Regular
    ensures HandedBack(copy, Recorded(Some(was), path, rule, sha, now), true)
         == was.(mode := DropSetIds(was.mode))
  {
    NewIdIs(copy.uid, was.uid);
    NewIdIs(copy.gid, was.gid);
  }

  /** Quarantine and restore compose to the identity on names; the file comes back with its
      content and owner, and with its mode less the set-id bits. */
  lemma {:induction false} ThereAndBack(s: Disk, d: Disk, e: Disk, fd: nat, path: string, rule: string, sha: string,
                                        now: int, dest: string, linked: bool, text: string)
    requires fd in s.inodes && Fits(s.inodes[fd], path, rule, sha, now) && dest + META !in s.names
    requires Quarantined(s, d, fd, path, dest, linked, true, text)
    requires PutBack(d, e, dest, Recorded(Some(s.inodes[fd]), path, rule, sha, now), true, true)
    requires dest + META != path && dest != path
    ensures e.names == s.names[path := e.names[path]] && e.names[path] in e.inodes
    ensures linked ==> e.names == s.names
    ensures var was, now := s.inodes[fd], e.inodes[e.names[path]]; now == was.(mode := DropSetIds(was.mode))
  {
    NamesBack(s.names, d.names, path, dest, dest + META, d.names[dest]);
    FileBack(s.inodes[fd], d.inodes[d.names[dest]], path, rule, sha, now);
  }

  /** When the owner could not be given back, or the sidecar not removed: the file comes back under its
      name with its whole mode, still the daemon's if it was copied; the sidecar stays. */
  lemma {:induction false} BackInPart(s: Disk, d: Disk, e: Disk, fd: nat, path: string, rule: string, sha: string,
                                      now: int, dest: string, linked: bool, text: string, chownOk: bool, cleaned: bool)
    requires fd in s.inodes && Fits(s.inodes[fd], path, rule, sha, now) && dest + META !in s.names
    requires Quarantined(s, d, fd, path, dest, linked, true, text)
    requires PutBack(d, e, dest, Recorded(Some(s.inodes[fd]), path, rule, sha, now), chownOk, cleaned)
    requires dest + META != path && dest != path
    ensures path in e.names && e.names[path] in e.inodes && dest !in e.names && (dest + META in e.names <==> !cleaned)
    ensures var was, back := s.inodes[fd], e.inodes[e.names[path]];
      && back.content == was.content
      && (!chownOk ==> back.mode == was.mode)
      && (!chownOk ==> (if linked then back.uid == was.uid && back.gid == was.gid else back.uid == 0 && back.gid == 0))
  {
  }

  /** Both operations in a row, on any file whose path has no newline, with linking or copying. */
  method QuarantineThenRestore(v: Volume, fd: nat, path: string, rule: string, sha: string,
                               dir: string, stamp: string, now: int, f: Faults)
    requires v.Valid() && fd in v.inodes && '/' !in stamp && NoFaults(f)
    requires Ready(v.Now(), fd, path, DestName(dir, EntryId(stamp, path))) && ValidId(EntryId(stamp, path))
    requires Fits(v.inodes[fd], path, rule, sha, now) && NoNewline(path)
    modifies v
    ensures path in v.names && v.names == old(v.names)[path := v.names[path]]
    ensures v.names[path] in v.inodes && v.inodes[v.names[path]]
              == old(v.inodes)[fd].(mode := DropSetIds(old(v.inodes)[fd].mode))
    ensures !f.link ==> v.names == old(v.names)
  {
    ghost var s := v.Now();
    ghost var record := Recorded(Some(s.inodes[fd]), path, rule, sha, now);
    var r, linked, saved, dest, text := QuarantineFile(v, fd, path, rule, sha, dir, stamp, now, f);
    ghost var d := v.Now();
    NamesDiffer(dir, stamp, path);
    WhereItGoes(s, d, fd, path, rule, sha, now, dir, EntryId(stamp, path), linked, text);
    var none := RestoreFaults(false, false, false, false, false, false, false);
    var back, m := RestoreFile(v, dir, EntryId(stamp, path), none);
    assert m == record;
    ThereAndBack(s, d, v.Now(), fd, path, rule, sha, now, dest, linked, text);
  }
}
