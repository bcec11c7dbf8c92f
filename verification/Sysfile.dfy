/** kernel/sysfile.c: create() of a file or device, with the clean-up when it fails
    half way. */
module Sysfile {
  import opened Bytes
  import opened FsFormat
  import opened FsSteps
  import opened FsTrunc
  import opened FsDisk
  import opened Names
  import opened Dir
  import Path
  import Fs

  const T_FILE: nat := 2
  const T_DEVICE: nat := 3

  predicate CanCreate(blocks: Blocks, ino: Inodes, d: nat, name: Str, typ: nat, n: nat) {
    && IsDir(ino, d) && Path.BoundOk(ino, DirMap(File(blocks, ino[d])), Key(name))
    && 0 < typ < SHORT && typ != T_DIR && n <= SHORT && forall i: nat :: 1 <= i < n ==> i in ino
  }

  /** File j is as it was; a free inode is free. */
  predicate KeptAt(b0: Blocks, i0: Inodes, b1: Blocks, i1: Inodes, but: set<nat>, j: nat) {
    j in i0 && j !in but && InodeAt(i0, j) ==>
      && j in i1
      && if i0[j].typ == 0 then i1[j].typ == 0 else i1[j] == i0[j] && File(b1, i1[j]) == File(b0, i0[j])
  }

  ghost predicate AllKept(b0: Blocks, i0: Inodes, b1: Blocks, i1: Inodes, but: set<nat>) {
    forall j: nat {:trigger KeptAt(b0, i0, b1, i1, but, j)} :: KeptAt(b0, i0, b1, i1, but, j)
  }

  function NewInode(typ: nat, nlink: nat): (ip: Inode) { Inode(typ, nlink, 0, seq(NDIRECT + 1, _ => 0)) }

  /** An existing file under the name serves if a file is asked for and it is one, or
      a device. */
  predicate Serves(typ: nat, found: nat) { typ == T_FILE && (found == T_FILE || found == T_DEVICE) }

  /** What create() does to the directory and the inodes: a name that is bound gives its
      inode exactly if that serves, and nothing changes; otherwise there is one new inode
      with one new name, or a failure that leaves everything as it was. */
  ghost predicate Created(b0: Blocks, i0: Inodes, b1: Blocks, i1: Inodes, d: nat, key: Str, typ: nat, r: Option<nat>) {
    && IsDir(i0, d) && IsDir(i1, d)
    && var m0, m1 := DirMap(File(b0, i0[d])), DirMap(File(b1, i1[d]));
    if key in m0 then
      && m0[key] in i0 && b1 == b0 && i1 == i0
      && r == if Serves(typ, i0[m0[key]].typ) then Some(m0[key]) else None
    else if r.None? then m1 == m0 && AllKept(b0, i0, b1, i1, {d})
    else
      && m1 == m0[key := r.value] && r.value in i0 && i0[r.value].typ == 0
      && r.value in i1 && i1[r.value] == NewInode(typ, 1) && AllKept(b0, i0, b1, i1, {d, r.value})
  }

  // ----- an inode that names no block -----

  lemma {:induction false} NoSlots(blocks: Blocks, typ: nat, nlink: nat, u: nat)
    requires u < SLOTS
    ensures SlotOf(blocks, NewInode(typ, nlink), u) == 0
  {
  }

  /** Its fields may change. */
  lemma {:induction false} Refield(sb: Super, blocks: Blocks, ino: Inodes, owner: Owners, i: nat, typ: nat, nlink: nat,
      nlink': nat)
    requires FsOk(sb, blocks, ino, owner) && i in ino && ino[i] == NewInode(typ, nlink)
    ensures FsOk(sb, blocks, ino[i := NewInode(typ, nlink')], owner)
    ensures OthersSame(blocks, ino, blocks, ino[i := NewInode(typ, nlink')], i)
  {
    assert InodeAt(ino, i);
    forall u: nat | u < SLOTS ensures SlotOf(blocks, ino[i], u) == 0 {
      NoSlots(blocks, typ, nlink, u);
    }
    hide FsOk, OthersSame;
    Fs.FreshInode(sb, blocks, ino, owner, i, NewInode(typ, nlink'), ino[i := NewInode(typ, nlink')]);
  }

  /** Freeing it frees no block. */
  lemma {:induction false} NothingReleased(sb: Super, b0: Blocks, i0: Inodes, owner0: Owners, b1: Blocks, i1: Inodes,
      owner1: Owners, i: nat, typ: nat, nlink: nat)
    requires FsOk(sb, b0, i0, owner0) && FsOk(sb, b1, i1, owner1) && i in i0 && i0[i] == NewInode(typ, nlink)
    requires Released(owner0, owner1, i, NDIRECT + 1, SLOTS) && Fs.Full(sb, b0)
    ensures Fs.Full(sb, b1)
  {
    forall x: nat | x < sb.size ensures Used(sb, b1, x) {
      assert BitAt(sb, b0, owner0, x) && BitAt(sb, b1, owner1, x) && NamedAt(b0, i0, owner0, x);
      assert ReleasedAt(owner0, owner1, i, NDIRECT + 1, SLOTS, x);
      if owner0[x].Slot? && owner0[x].inum == i { NoSlots(b0, typ, nlink, owner0[x].s); }
    }
  }

  // ----- create -----

  /** ialloc(), nlink = 1, iupdate(). */
  method NewFile(fs: Fs.Fs, typ: nat, n: nat) returns (i: nat)
    requires fs.Valid() && 0 < typ < SHORT && forall i: nat :: 1 <= i < n ==> i in fs.ino
    modifies fs
    ensures fs.Valid() && fs.dirty <= old(fs.dirty) && fs.start == old(fs.start)
    ensures i == 0 ==>
      fs.blocks == old(fs.blocks) && fs.ino == old(fs.ino) && forall j: nat :: 1 <= j < n ==> fs.ino[j].typ != 0
    ensures i != 0 ==> 1 <= i < n && old(fs.ino)[i].typ == 0 && fs.ino == old(fs.ino)[i := NewInode(typ, 1)]
    ensures OthersSame(old(fs.blocks), old(fs.ino), fs.blocks, fs.ino, i)
  {
    hide FsOk, NoTaken, Stored, Applied, Targets, OthersSame;
    i := fs.Ialloc(typ, n);
    if i != 0 {
      ghost var b1, i1 := fs.blocks, fs.ino;
      Refield(fs.sb, fs.blocks, fs.ino, fs.owner, i, typ, 0, 1);
      fs.StoreInode(i, NewInode(typ, 1));
      Fs.OthersSameStep(old(fs.blocks), old(fs.ino), b1, i1, fs.blocks, fs.ino, i);
    }
  }

  /** nlink = 0, iupdate(), iput() of an inode just made. */
  method DropNew(fs: Fs.Fs, i: nat, typ: nat)
    requires fs.Valid() && i in fs.ino && fs.ino[i] == NewInode(typ, 1) && typ < SHORT
    modifies fs
    ensures fs.Valid() && fs.dirty <= old(fs.dirty) && fs.start == old(fs.start)
    ensures fs.ino.Keys == old(fs.ino).Keys && fs.ino[i].typ == 0
    ensures OthersSame(old(fs.blocks), old(fs.ino), fs.blocks, fs.ino, i)
    ensures Fs.Full(fs.sb, old(fs.blocks)) ==> Fs.Full(fs.sb, fs.blocks)
  {
    hide FsOk, NoTaken, Stored, Applied, Targets, OthersSame, Released, Fs.Full;
    Refield(fs.sb, fs.blocks, fs.ino, fs.owner, i, typ, 1, 0);
    fs.StoreInode(i, NewInode(typ, 0));
    Fs.FullSame(fs.sb, old(fs.blocks), fs.blocks);
    ghost var b1, i1, owner1 := fs.blocks, fs.ino, fs.owner;
    fs.IputLast(i);
    Fs.OthersSameStep(old(fs.blocks), old(fs.ino), b1, i1, fs.blocks, fs.ino, i);
    if Fs.Full(fs.sb, b1) {
      NothingReleased(fs.sb, b1, i1, owner1, fs.blocks, fs.ino, fs.owner, i, typ, 0);
    }
  }

  /** One inode changes at a time: i, then possibly d, then possibly i again. */
  lemma {:induction false} KeptBut(b0: Blocks, i0: Inodes, b1: Blocks, i1: Inodes, b2: Blocks, i2: Inodes, i: nat,
      d: nat)
    requires OthersSame(b0, i0, b1, i1, i) && OthersSame(b1, i1, b2, i2, d)
    ensures AllKept(b0, i0, b2, i2, {d, i})
  {
    forall j: nat ensures KeptAt(b0, i0, b2, i2, {d, i}, j) {
      assert OtherAt(b0, i0, b1, i1, i, j) && OtherAt(b1, i1, b2, i2, d, j);
    }
  }

  lemma {:induction false} KeptBack(sb: Super, b0: Blocks, i0: Inodes, b1: Blocks, i1: Inodes, owner: Owners,
      b2: Blocks, i2: Inodes, i: nat, d: nat)
    requires AllKept(b0, i0, b1, i1, {d, i}) && OthersSame(b1, i1, b2, i2, i) && FsOk(sb, b1, i1, owner)
    requires i in i0 && i0[i].typ == 0 && i in i2 && i2[i].typ == 0
    ensures AllKept(b0, i0, b2, i2, {d})
  {
    forall j: nat ensures KeptAt(b0, i0, b2, i2, {d}, j) {
      assert KeptAt(b0, i0, b1, i1, {d, i}, j) && OtherAt(b1, i1, b2, i2, i, j) && InodeAt(i1, j);
    }
  }

  lemma {:induction false} KeptSame(blocks: Blocks, ino: Inodes, but: set<nat>)
    ensures AllKept(blocks, ino, blocks, ino, but)
  {
  }

  /** create() in directory d, for a type other than T_DIR. A name that is bound is
      decided as Created says; otherwise it fails only if no inode is free or there is
      no room for the entry. */
  method Create(fs: Fs.Fs, d: nat, name: Str, typ: nat, n: nat) returns (r: Option<nat>)
    requires fs.Valid() && CanCreate(fs.blocks, fs.ino, d, name, typ, n)
    modifies fs
    ensures fs.Valid() && fs.dirty <= old(fs.dirty) && fs.start == old(fs.start) && fs.ino.Keys == old(fs.ino).Keys
    ensures Created(old(fs.blocks), old(fs.ino), fs.blocks, fs.ino, d, Key(name), typ, r)
    ensures r.None? && Key(name) !in DirMap(File(old(fs.blocks), old(fs.ino)[d])) ==>
      || (forall i: nat :: 1 <= i < n ==> old(fs.ino)[i].typ != 0)
      || Fs.Full(fs.sb, fs.blocks) || old(fs.ino)[d].size == MAXFILE * BSIZE
  {
    hide FsOk, NoTaken, Stored, Applied, Targets, OthersSame, File, DirMap, Key, AllKept, Fs.Full, Distinct;
    ghost var b0, i0, f := fs.blocks, fs.ino, File(fs.blocks, fs.ino[d]);
    var found := Dirlookup(fs, d, name, f);
    if found.Some? {
      var ip := fs.ino[found.value];
      if typ == T_FILE && (ip.typ == T_FILE || ip.typ == T_DEVICE) {
        return found;
      }
      return None;
    }
    var i := NewFile(fs, typ, n);
    ghost var b1, i1 := fs.blocks, fs.ino;
    if i == 0 {
      KeptSame(b0, i0, {d});
      return None;
    }
    OtherFile(b0, i0, b1, i1, i, d);
    var ok;
    ghost var g;
    ok, g := Dirlink(fs, d, name, i, f);
    ghost var b2, i2, owner2 := fs.blocks, fs.ino, fs.owner;
    KeptBut(b0, i0, b1, i1, b2, i2, i, d);
    OtherFile(b1, i1, b2, i2, d, i);
    if ok {
      return Some(i);
    }
    DropNew(fs, i, typ);
    OtherFile(b2, i2, fs.blocks, fs.ino, i, d);
    KeptBack(fs.sb, b0, i0, b2, i2, owner2, fs.blocks, fs.ino, i, d);
    return None;
  }

  lemma {:induction false} OtherFile(b0: Blocks, i0: Inodes, b1: Blocks, i1: Inodes, i: nat, j: nat)
    requires OthersSame(b0, i0, b1, i1, i) && j in i0 && j != i && InodeAt(i0, j)
    ensures j in i1 && i1[j] == i0[j] && File(b1, i1[j]) == File(b0, i0[j])
  {
    assert OtherAt(b0, i0, b1, i1, i, j);
  }
}
