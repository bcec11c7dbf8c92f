/** Directories of kernel/fs.c over readi and writei: dirlookup and dirlink. */
module Dir {
  import opened Bytes
  import opened FsFormat
  import opened FsSteps
  import opened FsDisk
  import opened Names
  import Fs

  const T_DIR: nat := 1

  predicate IsDir(ino: Inodes, d: nat) {
    d in ino && InodeAt(ino, d) && ino[d].typ == T_DIR && ino[d].size % DESIZE == 0
  }

  /** The struct dirent for a name, with the inode number cut to 16 bits. */
  function Dirent(name: Str, inum: nat): (de: Str)
    ensures |de| == DESIZE
  {
    [inum % 256, inum / 256 % 256] + Padded(name, DIRSIZ)
  }

  lemma {:induction false} EntryFits(k: nat, size: nat)
    requires size % DESIZE == 0 && DESIZE * k < size
    ensures DESIZE * k + DESIZE <= size && k + 1 <= size / DESIZE
  {
  }

  lemma {:induction false} EntriesDone(k: nat, size: nat)
    requires DESIZE * k == size
    ensures k == size / DESIZE
  {
  }

  /** A write cut off at a block boundary has written whole entries. */
  lemma {:induction false} ShortEntry(k: nat, tot: nat)
    requires tot < DESIZE && (tot == 0 || (DESIZE * k + tot) % BSIZE == 0)
    ensures tot == 0
  {
    assert BSIZE == 64 * DESIZE;
  }

  lemma {:induction false} SpliceNone(f: Str, off: nat, s: Str)
    requires off <= |f|
    ensures Splice(f, off, s[..0]) == f
  {
  }

  /** One entry, as readi copies it out. */
  method ReadEntry(fs: Fs.Fs, d: nat, k: nat, ghost f: Str) returns (inum: nat, name: Str)
    requires fs.Valid() && IsDir(fs.ino, d) && f == File(fs.blocks, fs.ino[d]) && DESIZE * k + DESIZE <= |f|
    modifies fs
    ensures fs.Valid() && fs.blocks == old(fs.blocks) && fs.ino == old(fs.ino) && fs.owner == old(fs.owner)
      && fs.dirty == old(fs.dirty) && fs.start == old(fs.start)
    ensures inum == Inum(f, k) && name == Name(f, k)
  {
    hide FsOk, NoTaken, Applied, Targets, Stored, File;
    var de := fs.Readi(d, DESIZE * k, DESIZE);
    assert de == f[DESIZE * k..DESIZE * k + DESIZE];
    var lo: int, hi: int := de[0], de[1];
    return lo + 256 * hi, de[2..];
  }

  /** One round of dirlookup's loop. */
  method MatchEntry(fs: Fs.Fs, d: nat, k: nat, name: Str, ghost f: Str) returns (r: Option<nat>)
    requires fs.Valid() && IsDir(fs.ino, d) && f == File(fs.blocks, fs.ino[d]) && DESIZE * k + DESIZE <= |f|
    modifies fs
    ensures fs.Valid() && fs.blocks == old(fs.blocks) && fs.ino == old(fs.ino) && fs.owner == old(fs.owner)
      && fs.dirty == old(fs.dirty) && fs.start == old(fs.start)
    ensures r == if Inum(f, k) != 0 && Key(Name(f, k)) == Key(name) then Some(Inum(f, k)) else None
  {
    hide FsOk, NoTaken, Applied, Targets, Stored, File;
    var inum, entry := ReadEntry(fs, d, k, f);
    if inum == 0 {
      return None;
    }
    var same := Namecmp(name, entry);
    return if same then Some(inum) else None;
  }

  /** dirlookup(): finds the name exactly if the directory binds it, and then what
      it binds it to. */
  method Dirlookup(fs: Fs.Fs, d: nat, name: Str, ghost f: Str) returns (r: Option<nat>)
    requires fs.Valid() && IsDir(fs.ino, d) && f == File(fs.blocks, fs.ino[d])
    modifies fs
    ensures fs.Valid() && fs.blocks == old(fs.blocks) && fs.ino == old(fs.ino) && fs.owner == old(fs.owner)
      && fs.dirty == old(fs.dirty) && fs.start == old(fs.start)
    ensures r.Some? <==> Key(name) in DirMap(f)
    ensures r.Some? ==> r.value == DirMap(f)[Key(name)] && r.value != 0
  {
    hide FsOk, NoTaken, Applied, Targets, Stored, File, Key, Name, Inum;
    var k, size := 0, fs.ino[d].size;
    while DESIZE * k < size
      invariant fs.Valid() && fs.blocks == old(fs.blocks) && fs.ino == old(fs.ino) && fs.owner == old(fs.owner)
        && fs.dirty == old(fs.dirty) && fs.start == old(fs.start)
      invariant DESIZE * k <= |f| && Key(name) !in Bindings(f, k)
    {
      EntryFits(k, size);
      r := MatchEntry(fs, d, k, name, f);
      if r.Some? {
        BindingStays(f, k + 1, |f| / DESIZE, Key(name));
        return;
      }
      k := k + 1;
    }
    EntriesDone(k, size);
    return None;
  }

  lemma {:induction false} BindingStays(f: Str, n: nat, m: nat, key: Str)
    requires n <= m && DESIZE * m <= |f| && key in Bindings(f, n)
    ensures key in Bindings(f, m) && Bindings(f, m)[key] == Bindings(f, n)[key]
    decreases m
  {
    if n < m { BindingStays(f, n, m - 1, key); }
  }

  /** Entry k is the first free one, or the end of a directory without one. */
  predicate FirstFree(f: Str, k: nat) {
    && DESIZE * k <= |f| && |f| % DESIZE == 0 && (DESIZE * k < |f| ==> Inum(f, k) == 0)
    && forall j: nat :: j < k ==> Inum(f, j) != 0
  }

  /** The first free entry, or the end of the directory. */
  method FindFree(fs: Fs.Fs, d: nat, ghost f: Str) returns (k: nat)
    requires fs.Valid() && IsDir(fs.ino, d) && f == File(fs.blocks, fs.ino[d])
    modifies fs
    ensures fs.Valid() && fs.blocks == old(fs.blocks) && fs.ino == old(fs.ino) && fs.owner == old(fs.owner)
      && fs.dirty == old(fs.dirty) && fs.start == old(fs.start)
    ensures FirstFree(f, k)
  {
    hide FsOk, NoTaken, Applied, Targets, Stored, File;
    k := 0;
    var size := fs.ino[d].size;
    while DESIZE * k < size
      invariant fs.Valid() && fs.blocks == old(fs.blocks) && fs.ino == old(fs.ino) && fs.owner == old(fs.owner)
        && fs.dirty == old(fs.dirty) && fs.start == old(fs.start) && DESIZE * k <= |f|
      invariant forall j: nat :: j < k ==> Inum(f, j) != 0
    {
      EntryFits(k, size);
      var inum, entry := ReadEntry(fs, d, k, f);
      if inum == 0 {
        return;
      }
      k := k + 1;
    }
  }

  /** writei() of the entry at its place. */
  method WriteEntry(fs: Fs.Fs, d: nat, k: nat, name: Str, inum: nat, ghost f: Str) returns (ok: bool, ghost g: Str)
    requires fs.Valid() && IsDir(fs.ino, d) && inum < TWO_32 && f == File(fs.blocks, fs.ino[d])
    requires FirstFree(f, k)
    modifies fs
    ensures fs.Valid() && IsDir(fs.ino, d) && OthersSame(old(fs.blocks), old(fs.ino), fs.blocks, fs.ino, d)
      && g == File(fs.blocks, fs.ino[d])
    ensures fs.dirty <= old(fs.dirty) && fs.start == old(fs.start) && fs.ino.Keys == old(fs.ino).Keys
    ensures ok ==> Linked(f, g, k, Key(name), inum % 0x1_0000) && g == Splice(f, DESIZE * k, Dirent(name, inum))
    ensures !ok ==> g == f && DESIZE * k == |f| && (Fs.Full(fs.sb, fs.blocks) || |f| == MAXFILE * BSIZE)
  {
    hide FsOk, NoTaken, Applied, Targets, Stored, File, Splice, OthersSame, Linked, Padded;
    var field := Strncpy(name, DIRSIZ);
    var de: Str := [inum % 256, inum / 256 % 256] + field;
    var r;
    ghost var data;
    r, data := fs.Writei(d, DESIZE * k, de);
    g := File(fs.blocks, fs.ino[d]);
    ok := r == Some(DESIZE);
    if ok {
      assert de[..DESIZE] == de;
      SpliceLinked(f, k, name, inum, de, g);
    } else if r.Some? {
      ShortEntry(k, r.value);
      SpliceNone(f, DESIZE * k, de);
    }
  }

  /** dirlink(): success adds exactly one binding, or none if the low 16 bits of inum
      are 0, in the first free entry or, if there is none, in a new one at the end;
      failure leaves the directory as it was, and happens only if the name is bound
      already, or no entry is free and the disk is full or the directory has its full
      size. f and g are the directory's contents before and after. */
  method Dirlink(fs: Fs.Fs, d: nat, name: Str, inum: nat, ghost f: Str) returns (ok: bool, ghost g: Str)
    requires fs.Valid() && IsDir(fs.ino, d) && inum < TWO_32 && f == File(fs.blocks, fs.ino[d])
    modifies fs
    ensures fs.Valid() && IsDir(fs.ino, d) && OthersSame(old(fs.blocks), old(fs.ino), fs.blocks, fs.ino, d)
      && g == File(fs.blocks, fs.ino[d])
    ensures fs.dirty <= old(fs.dirty) && fs.start == old(fs.start) && fs.ino.Keys == old(fs.ino).Keys
    ensures ok ==> Key(name) !in DirMap(f)
    ensures ok ==> DirMap(g) == if inum % 0x1_0000 == 0 then DirMap(f) else DirMap(f)[Key(name) := inum % 0x1_0000]
    ensures ok && inum % 0x1_0000 != 0 && Distinct(f, |f| / DESIZE) ==> Distinct(g, |g| / DESIZE)
    ensures ok ==> exists k: nat :: FirstFree(f, k) && g == Splice(f, DESIZE * k, Dirent(name, inum))
    ensures !ok ==> g == f
    ensures !ok && Key(name) !in DirMap(f) ==>
      FirstFree(f, |f| / DESIZE) && (Fs.Full(fs.sb, fs.blocks) || |f| == MAXFILE * BSIZE)
  {
    hide FsOk, NoTaken, Applied, Targets, Stored, File, OthersSame, Linked;
    g := f;
    var found := Dirlookup(fs, d, name, f);
    if found.Some? {
      Fs.OthersRefl(fs.blocks, fs.ino, d);
      return false, f;
    }
    var k := FindFree(fs, d, f);
    ok, g := WriteEntry(fs, d, k, name, inum, f);
    if ok && inum % 0x1_0000 != 0 {
      LinkedMap(f, g, k, Key(name), inum % 0x1_0000);
    } else if ok {
      UnlinkedMap(f, g, k, Key(name));
    }
  }

  /** dirlink() with inode number 65536: it reports success and the name stays unbound. */
  method LinkLost(fs: Fs.Fs, d: nat, name: Str, ghost f: Str) returns (ok: bool, ghost g: Str)
    requires fs.Valid() && IsDir(fs.ino, d) && f == File(fs.blocks, fs.ino[d]) && Key(name) !in DirMap(f)
    modifies fs
    ensures IsDir(fs.ino, d) && g == File(fs.blocks, fs.ino[d]) && Key(name) !in DirMap(g)
    ensures !ok ==> Fs.Full(fs.sb, fs.blocks) || |f| == MAXFILE * BSIZE
  {
    hide FsOk, NoTaken, Applied, Targets, Stored, File, OthersSame, DirMap, Key;
    ok, g := Dirlink(fs, d, name, 0x1_0000, f);
  }

  lemma {:induction false} SameBytes(f: Str, g: Str, k: nat)
    requires DESIZE * k + DESIZE <= |f| && DESIZE * k + DESIZE <= |g|
    requires g[DESIZE * k..DESIZE * k + DESIZE] == f[DESIZE * k..DESIZE * k + DESIZE]
    ensures Inum(g, k) == Inum(f, k) && Name(g, k) == Name(f, k)
  {
    var a := DESIZE * k;
    assert g[a] == g[a..a + DESIZE][0] && f[a] == f[a..a + DESIZE][0];
    assert g[a + 1] == g[a..a + DESIZE][1] && f[a + 1] == f[a..a + DESIZE][1];
    assert Name(g, k) == g[a..a + DESIZE][2..] && Name(f, k) == f[a..a + DESIZE][2..];
  }

  /** Writing an entry at a free place links it. */
  lemma {:induction false} SpliceLinked(f: Str, p: nat, name: Str, inum: nat, de: Str, g: Str)
    requires |f| % DESIZE == 0 && DESIZE * p <= |f| && (DESIZE * p < |f| ==> Inum(f, p) == 0)
    requires de == Dirent(name, inum) && g == Splice(f, DESIZE * p, de)
    ensures Linked(f, g, p, Key(name), inum % 0x1_0000) && |g| % DESIZE == 0
  {
    assert g[DESIZE * p..DESIZE * p + DESIZE] == de;
    assert Name(g, p) == de[2..] == Padded(name, DIRSIZ);
    CutPadded(name, DIRSIZ);
    assert inum % 0x1_0000 == inum % 256 + 256 * (inum / 256 % 256);
    forall k: nat | k != p ensures SameEntryAt(f, g, k) {
      if DESIZE * k + DESIZE <= |f| {
        assert g[DESIZE * k..DESIZE * k + DESIZE] == f[DESIZE * k..DESIZE * k + DESIZE];
        SameBytes(f, g, k);
      }
    }
  }
}
