/** The part of a file system that quarantine works on: names, inodes and the calls that change
    them. Every call either takes effect as a whole or, when told to fail, not at all. */
module FileSystem {
  type Id = x: nat | x < 0x1_0000_0000

  type Mode = x: nat | x < MODE_BITS

  datatype Kind = Regular | Symlink | Other
  datatype Inode = Inode(kind: Kind, content: string, mode: Mode, uid: Id, gid: Id)
  datatype Disk = Disk(names: map<string, nat>, inodes: map<nat, Inode>)

  const SET_UID := 2048
  const SET_GID := 1024
  const GROUP_EXEC := 8
  const MODE_BITS := 4096
  const NO_ID := 0xFFFF_FFFF

  predicate HasBit(mode: Mode, bit: nat)
    requires bit > 0
  {
    mode / bit % 2 == 1
  }

  /** Changing an owner drops set-user-ID, and set-group-ID on a group-executable file. */
  function DropSetIds(mode: Mode): Mode {
    var m: Mode := if HasBit(mode, SET_UID) then mode - SET_UID else mode;
    if HasBit(m, SET_GID) && HasBit(m, GROUP_EXEC) then m - SET_GID else m
  }

  lemma {:induction false} KeepsMode(mode: Mode)
    ensures DropSetIds(mode) == mode
      <==> !HasBit(mode, SET_UID) && !(HasBit(mode, SET_GID) && HasBit(mode, GROUP_EXEC))
  {
  }

  /** Bit by bit: set-user-ID (2048) always goes, set-group-ID (1024) goes from a file its group may
      execute (8), and the ten bits below stay. */
  lemma {:induction false} BitsDropped(mode: Mode)
    ensures DropSetIds(mode) % 1024 == mode % 1024 && DropSetIds(mode) / 2048 == 0
    ensures DropSetIds(mode) / 1024 % 2 == if mode / 8 % 2 == 1 then 0 else mode / 1024 % 2
  {
  }

  class Volume {
    var names: map<string, nat>
    var inodes: map<nat, Inode>
    var next: nat
    /** Every state so far. */
    ghost var past: seq<Disk>

    ghost predicate Valid()
      reads this
    {
      && (forall n :: n in names ==> names[n] in inodes)
      && (forall k :: k in inodes ==> k < next)
    }

    function Now(): Disk
      reads this
    {
      Disk(names, inodes)
    }

    /** A second name for an open file; an inode with no name left cannot be linked again. */
    method Link(fd: nat, dst: string, fail: bool) returns (ok: bool)
      requires Valid() && fd in inodes
      modifies this
      ensures Valid() && inodes == old(inodes)
      ensures ok == (!fail && dst !in old(names) && fd in old(names).Values)
      ensures names == (if ok then old(names)[dst := fd] else old(names))
      ensures past == (if ok then old(past) + [Now()] else old(past))
    {
      ok := !fail && dst !in names && fd in names.Values;
      if ok {
        names := names[dst := fd];
        past := past + [Now()];
      }
    }

    /** An exclusive create, owned by the daemon. */
    method Create(dst: string, mode: Mode, fail: bool) returns (ok: bool, ino: nat)
      requires Valid()
      modifies this
      ensures Valid() && ok == (!fail && dst !in old(names))
      ensures ok ==> ino !in old(inodes) && past == old(past) + [Now()]
      ensures ok ==> names == old(names)[dst := ino] && inodes == old(inodes)[ino := Inode(Regular, "", mode, 0, 0)]
      ensures !ok ==> names == old(names) && inodes == old(inodes) && past == old(past)
    {
      ok, ino := !fail && dst !in names, next;
      if ok {
        next := next + 1;
        names := names[dst := ino];
        inodes := inodes[ino := Inode(Regular, "", mode, 0, 0)];
        past := past + [Now()];
      }
    }

    /** Replaces an inode: the effect of write, fchmod and fchown. */
    method Change(ino: nat, to: Inode)
      requires Valid() && ino in inodes
      modifies this
      ensures Valid() && names == old(names) && inodes == old(inodes)[ino := to]
      ensures past == old(past) + [Now()]
    {
      inodes := inodes[ino := to];
      past := past + [Now()];
    }

    method Unlink(path: string, fail: bool) returns (ok: bool)
      requires Valid()
      modifies this
      ensures Valid() && inodes == old(inodes) && ok == (!fail && path in old(names))
      ensures names == (if ok then old(names) - {path} else old(names))
      ensures past == (if ok then old(past) + [Now()] else old(past))
    {
      ok := !fail && path in names;
      if ok {
        names := names - {path};
        past := past + [Now()];
      }
    }

    /** Moves a name over another; two names of one inode are left alone. */
    method Rename(from: string, to: string, fail: bool) returns (ok: bool)
      requires Valid()
      modifies this
      ensures Valid() && inodes == old(inodes) && ok == (!fail && from in old(names))
      ensures names == (if !ok || (to in old(names) && old(names)[to] == old(names)[from]) then old(names)
                        else (old(names) - {from})[to := old(names)[from]])
      ensures past == (if ok then old(past) + [Now()] else old(past))
    {
      ok := !fail && from in names;
      if ok {
        if !(to in names && names[to] == names[from]) {
          names := (names - {from})[to := names[from]];
        }
        past := past + [Now()];
      }
    }
  }
}
