/** kernel/file.c: filewrite cuts a write into operations small enough for the log. */
module FileWrite {
  import opened Bytes
  import opened Bitmap
  import opened FsFormat
  import opened FsSteps
  import LogFormat
  import Fs

  /** ((MAXOPBLOCKS-1-1-2) / 2) * BSIZE */
  const MAXWRITE: nat := (LogFormat.MAXOPBLOCKS - 1 - 1 - 2) / 2 * BSIZE

  /** Bytes of at most MAXWRITE lie in at most four blocks. */
  lemma {:induction false} SpanBound(off: nat, n: nat)
    requires n <= MAXWRITE
    ensures Span(off, n) <= 4
  {
  }

  lemma {:induction false} UnionBound(a: set<nat>, b: set<nat>, c: set<nat>, d: set<nat>, s: set<nat>)
    requires s <= a + b + c + d
    ensures |s| <= |a| + |b| + |c| + |d|
  {
    Subset(s, a + b + c + d);
    assert |a + b| <= |a| + |b|;
    assert |a + b + c| <= |a + b| + |c|;
    assert |a + b + c + d| <= |a + b + c| + |d|;
  }

  lemma {:induction false} Subset(s: set<nat>, t: set<nat>)
    requires s <= t
    ensures |s| <= |t|
  {
    assert t == s + (t - s);
  }

  /** One operation of filewrite logs at most MAXOPBLOCKS distinct blocks when the
      free map is one block: four of data, the indirect block, the free map and
      the inode. */
  lemma {:induction false} WriteBudget(sb: Super, logged: set<nat>, ip: Inode, off: nat, n: nat, data: set<nat>,
      ib: nat)
    requires n <= MAXWRITE && 0 < sb.size <= BPB && |data| <= Span(off, n)
      && Fs.LogsOnly(sb, {}, logged, ip, data + {ib})
    ensures |logged| <= 7 <= LogFormat.MAXOPBLOCKS
  {
    SpanBound(off, n);
    assert |MapBlocks(sb)| <= 1;
    UnionBound(MapBlocks(sb), Indirect(ip), data, {ib}, logged);
  }

  lemma {:induction false} SpliceCat(f: seq<Byte>, off: nat, a: seq<Byte>, b: seq<Byte>)
    requires off <= |f|
    ensures Splice(Splice(f, off, a), off + |a|, b) == Splice(f, off, a + b)
  {
  }

  lemma {:induction false} SpliceNothing(f: seq<Byte>, off: nat)
    requires off <= |f|
    ensures Splice(f, off, []) == f
  {
  }

  predicate WithinBudget(op: set<nat>) { |op| <= LogFormat.MAXOPBLOCKS }

  /** One operation of filewrite: begin_op, writei, end_op. */
  method WriteOp(fs: Fs.Fs, i: nat, off: nat, src: seq<Byte>) returns (r: Option<nat>)
    requires fs.Valid() && i in fs.ino && fs.ino[i].typ != 0 && off < TWO_32 && |src| <= MAXWRITE && fs.sb.size <= BPB
    modifies fs
    ensures fs.Valid() && i in fs.ino && InodeAt(old(fs.ino), i) && InodeAt(fs.ino, i) && WithinBudget(fs.logged)
    ensures fs.start == old(fs.blocks) && fs.dirty <= old(fs.dirty) && fs.ino.Keys == old(fs.ino).Keys
    ensures r.None? <==> off > old(fs.ino)[i].size || off + |src| > MAXFILE * BSIZE
    ensures r.None? ==> File(fs.blocks, fs.ino[i]) == File(old(fs.blocks), old(fs.ino)[i])
    ensures r.Some? ==>
      r.value <= |src|
      && File(fs.blocks, fs.ino[i]) == Splice(File(old(fs.blocks), old(fs.ino)[i]), off, src[..r.value])
    ensures r.Some? && r.value < |src| ==> Fs.Full(fs.sb, fs.blocks) && off + r.value >= old(fs.ino)[i].size
    ensures fs.ino[i].typ == old(fs.ino)[i].typ && OthersSame(old(fs.blocks), old(fs.ino), fs.blocks, fs.ino, i)
  {
    ghost var data;
    fs.BeginOp();
    r, data := fs.Writei(i, off, src);
    WriteBudget(fs.sb, fs.logged, fs.ino[i], off, |src|, data, InodeBlock(fs.sb, i));
  }

  /** g is f with the first k bytes of src written at off, or f itself if off lies
      beyond its end. */
  predicate Written(f: seq<Byte>, off: nat, src: seq<Byte>, k: nat, g: seq<Byte>) {
    k <= |src| && if off <= |f| then g == Splice(f, off, src[..k]) else g == f && k == 0
  }

  lemma {:induction false} WrittenNext(f: seq<Byte>, off: nat, src: seq<Byte>, k: nat, g: seq<Byte>, n1: nat, v: nat,
      h: seq<Byte>)
    requires Written(f, off, src, k, g) && k + n1 <= |src| && v <= n1 && off + k <= |g|
      && h == Splice(g, off + k, src[k..k + n1][..v])
    ensures Written(f, off, src, k + v, h)
  {
    if off <= |f| {
      SpliceCat(f, off, src[..k], src[k..k + n1][..v]);
      assert src[..k] + src[k..k + n1][..v] == src[..k + v];
    }
  }

  ghost predicate AllWithin(ops: seq<set<nat>>) {
    forall k :: 0 <= k < |ops| ==> WithinBudget(ops[k])
  }

  /** One round of filewrite's loop. */
  method WriteNext(fs: Fs.Fs, i: nat, off: nat, src: seq<Byte>, k: nat, n1: nat, ghost f: seq<Byte>)
      returns (v: nat, ok: bool)
    requires fs.Valid() && i in fs.ino && fs.ino[i].typ != 0 && InodeAt(fs.ino, i) && off < TWO_31 && |src| < TWO_31
      && fs.sb.size <= BPB
    requires k + n1 <= |src| && 0 < n1 <= MAXWRITE && Written(f, off, src, k, File(fs.blocks, fs.ino[i]))
    modifies fs
    ensures fs.Valid() && i in fs.ino && fs.ino[i].typ != 0 && InodeAt(fs.ino, i) && WithinBudget(fs.logged)
    ensures v <= n1 && (ok <==> v == n1) && Written(f, off, src, k + v, File(fs.blocks, fs.ino[i]))
    ensures !ok && off <= |f| ==>
      off + |src| > MAXFILE * BSIZE || (Fs.Full(fs.sb, fs.blocks) && off + k + v >= |f|)
    ensures OthersSame(old(fs.blocks), old(fs.ino), fs.blocks, fs.ino, i)
  {
    hide OthersSame, FsOk, WithinBudget, File, Splice;
    var r := WriteOp(fs, i, off + k, src[k..k + n1]);
    if r.None? {
      return 0, false;
    }
    WrittenNext(f, off, src, k, File(old(fs.blocks), old(fs.ino)[i]), n1, r.value, File(fs.blocks, fs.ino[i]));
    return r.value, r.value == n1;
  }

  /** k of n bytes have been written in c operations, each of MAXWRITE bytes but the last. */
  predicate InChunks(k: nat, c: nat, n: nat) {
    k == (if c * MAXWRITE <= n then c * MAXWRITE else n) && (c == 0 || (c - 1) * MAXWRITE < n)
  }

  /** filewrite(): off' - off bytes get written, in operations of MAXWRITE bytes but for
      the last and of at most MAXOPBLOCKS blocks each; it returns n exactly if that is
      all of them, else -1 (None). f is the file before. */
  method Filewrite(fs: Fs.Fs, i: nat, off: nat, src: seq<Byte>, ghost f: seq<Byte>)
      returns (ret: Option<nat>, off': nat, ghost ops: seq<set<nat>>)
    requires fs.Valid() && i in fs.ino && fs.ino[i].typ != 0 && InodeAt(fs.ino, i) && f == File(fs.blocks, fs.ino[i])
      && off < TWO_31 && |src| < TWO_31 && fs.sb.size <= BPB
    modifies fs
    ensures fs.Valid() && i in fs.ino && InodeAt(fs.ino, i)
      && OthersSame(old(fs.blocks), old(fs.ino), fs.blocks, fs.ino, i)
    ensures off <= off' <= off + |src| && (ret == if off' == off + |src| then Some(|src|) else None)
    ensures Written(f, off, src, off' - off, File(fs.blocks, fs.ino[i]))
    ensures ret.None? && off <= |f| ==>
      off + |src| > MAXFILE * BSIZE || (Fs.Full(fs.sb, fs.blocks) && off' >= |f|)
    ensures AllWithin(ops) && (ret.Some? ==> |ops| == (|src| + MAXWRITE - 1) / MAXWRITE)
  {
    hide OthersSame, FsOk, WithinBudget, File, Written;
    ops := [];
    var k, ok := 0, true;
    Fs.OthersRefl(fs.blocks, fs.ino, i);
    WrittenNone(f, off, src);
    while k < |src| && ok
      invariant k <= |src| && fs.Valid() && i in fs.ino && fs.ino[i].typ != 0 && InodeAt(fs.ino, i)
      invariant OthersSame(old(fs.blocks), old(fs.ino), fs.blocks, fs.ino, i) && AllWithin(ops)
      invariant Written(f, off, src, k, File(fs.blocks, fs.ino[i]))
      invariant !ok ==> k < |src| && (off <= |f| ==>
        off + |src| > MAXFILE * BSIZE || (Fs.Full(fs.sb, fs.blocks) && off + k >= |f|))
      invariant ok ==> InChunks(k, |ops|, |src|)
      decreases |src| - k, ok
    {
      var n1 := if |src| - k > MAXWRITE then MAXWRITE else |src| - k;
      ghost var b1, ino1, k1 := fs.blocks, fs.ino, k;
      var v: nat;
      v, ok := WriteNext(fs, i, off, src, k, n1, f);
      ops := ops + [fs.logged];
      Fs.OthersSameStep(old(fs.blocks), old(fs.ino), b1, ino1, fs.blocks, fs.ino, i);
      k := k + v;
    }
    off' := off + k;
    return if k == |src| then Some(|src|) else None, off', ops;
  }

  lemma {:induction false} WrittenNone(f: seq<Byte>, off: nat, src: seq<Byte>)
    ensures Written(f, off, src, 0, f)
  {
    if off <= |f| {
      SpliceNothing(f, off);
      assert src[..0] == [];
    }
  }
}
