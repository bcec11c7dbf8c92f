/** The file system on disk: inodes as bytes in inode blocks, and the block
    contents an operation hands to log_write. */
module FsDisk {
  import opened Bytes
  import opened FsFormat

  // ----- struct dinode -----

  const SHORT: nat := 0x1_0000
  /** Inodes per block, and words of an inode. */
  const IPB: nat := 16
  const DINODE: nat := 16

  /** The fields fit their types on disk. */
  predicate Fits(ip: Inode) {
    && ip.typ < SHORT && ip.nlink < SHORT && ip.size < TWO_32
    && |ip.addrs| == NDIRECT + 1 && forall j :: 0 <= j <= NDIRECT ==> ip.addrs[j] < TWO_32
  }

  /** A word with its low half replaced, and with its high half replaced. */
  function SetLow(u: U32, v: nat): (r: U32)
    requires v < SHORT
    ensures r % SHORT == v && r / SHORT == u / SHORT
  {
    u / SHORT * SHORT + v
  }

  function SetHigh(u: U32, v: nat): (r: U32)
    requires v < SHORT
    ensures r / SHORT == v && r % SHORT == u % SHORT
  {
    v * SHORT + u % SHORT
  }

  function Word(b: Block, w: nat): (v: nat)
    requires 4 * w + 4 <= BSIZE
    ensures v < TWO_32
  {
    GetU32(b, w)
  }

  function GetAddrs(b: Block, w: nat, n: nat): (r: seq<nat>)
    requires 4 * (w + n) <= BSIZE
    ensures |r| == n && forall j :: 0 <= j < n ==> r[j] == Word(b, w + j)
  {
    if n == 0 then [] else GetAddrs(b, w, n - 1) + [Word(b, w + n - 1)]
  }

  /** Inode k of an inode block. */
  function GetInode(b: Block, k: nat): (ip: Inode)
    requires k < IPB
    ensures Fits(ip)
  {
    var w := DINODE * k;
    Inode(Word(b, w) % SHORT, Word(b, w + 1) / SHORT, Word(b, w + 2), GetAddrs(b, w + 3, NDIRECT + 1))
  }

  /** b with the first n addresses stored from word w on. */
  function PutAddrs(b: Block, w: nat, addrs: seq<nat>, n: nat): (r: Block)
    requires n <= |addrs| && 4 * (w + n) <= BSIZE && forall j :: 0 <= j < |addrs| ==> addrs[j] < TWO_32
  {
    if n == 0 then b else PutU32(PutAddrs(b, w, addrs, n - 1), w + n - 1, addrs[n - 1])
  }

  /** The first three words of inode k: type and major, minor and nlink, size. */
  function PutFields(b: Block, k: nat, ip: Inode): (r: Block)
    requires k < IPB && Fits(ip)
  {
    var w := DINODE * k;
    var b1: Block := PutU32(b, w, SetLow(Word(b, w), ip.typ));
    var b2: Block := PutU32(b1, w + 1, SetHigh(Word(b1, w + 1), ip.nlink));
    PutU32(b2, w + 2, ip.size)
  }

  /** iupdate: inode k of the block is stored; major and minor stay. */
  function PutInode(b: Block, k: nat, ip: Inode): (r: Block)
    requires k < IPB && Fits(ip)
  {
    PutAddrs(PutFields(b, k, ip), DINODE * k + 3, ip.addrs, NDIRECT + 1)
  }

  lemma {:induction false} PutWord(b: Block, i: nat, v: U32, x: nat)
    requires 4 * i + 4 <= BSIZE && 4 * x + 4 <= BSIZE
    ensures Word(PutU32(b, i, v), x) == if x == i then v else Word(b, x)
  {
    GetPut(b, i, v);
  }

  lemma {:induction false} PutAddrsWord(b: Block, w: nat, addrs: seq<nat>, n: nat, x: nat)
    requires n <= |addrs| && 4 * (w + n) <= BSIZE && forall j :: 0 <= j < |addrs| ==> addrs[j] < TWO_32
    requires 4 * x + 4 <= BSIZE
    ensures Word(PutAddrs(b, w, addrs, n), x) == if w <= x < w + n then addrs[x - w] else Word(b, x)
  {
    hide Word, PutU32;
    if n > 0 {
      PutAddrsWord(b, w, addrs, n - 1, x);
      PutWord(PutAddrs(b, w, addrs, n - 1), w + n - 1, addrs[n - 1], x);
    }
  }

  lemma {:induction false} PutFieldsWord(b: Block, k: nat, ip: Inode, x: nat)
    requires k < IPB && Fits(ip) && 4 * x + 4 <= BSIZE
    ensures var w := DINODE * k;
      Word(PutFields(b, k, ip), x) ==
        if x == w then SetLow(Word(b, x), ip.typ)
        else if x == w + 1 then SetHigh(Word(b, x), ip.nlink)
        else if x == w + 2 then ip.size
        else Word(b, x)
  {
    hide Word, PutU32, SetLow, SetHigh;
    var w := DINODE * k;
    var b1: Block := PutU32(b, w, SetLow(Word(b, w), ip.typ));
    PutWord(b, w, SetLow(Word(b, w), ip.typ), x);
    PutWord(b, w, SetLow(Word(b, w), ip.typ), w + 1);
    var b2: Block := PutU32(b1, w + 1, SetHigh(Word(b1, w + 1), ip.nlink));
    PutWord(b1, w + 1, SetHigh(Word(b1, w + 1), ip.nlink), x);
    PutWord(b2, w + 2, ip.size, x);
  }

  /** Word x of inode j after iupdate of inode k. */
  lemma {:induction false} PutInodeWord(b: Block, k: nat, ip: Inode, j: nat, x: nat)
    requires k < IPB && Fits(ip) && j < IPB && x < DINODE
    ensures Word(PutInode(b, k, ip), DINODE * j + x) ==
        var v := Word(b, DINODE * j + x);
        if j != k then v
        else if x == 0 then SetLow(v, ip.typ)
        else if x == 1 then SetHigh(v, ip.nlink)
        else if x == 2 then ip.size
        else ip.addrs[x - 3]
  {
    hide Word, SetLow, SetHigh, PutFields, PutAddrs;
    PutFieldsWord(b, k, ip, DINODE * j + x);
    PutAddrsWord(PutFields(b, k, ip), DINODE * k + 3, ip.addrs, NDIRECT + 1, DINODE * j + x);
  }

  /** An inode that iupdate stored reads back; the others of its block stay. */
  lemma {:induction false} PutGetInode(b: Block, k: nat, ip: Inode, j: nat)
    requires k < IPB && Fits(ip) && j < IPB
    ensures GetInode(PutInode(b, k, ip), j) == if j == k then ip else GetInode(b, j)
  {
    hide Word, SetLow, SetHigh, PutInode;
    var r, want := PutInode(b, k, ip), if j == k then ip else GetInode(b, j);
    PutInodeWord(b, k, ip, j, 0);
    PutInodeWord(b, k, ip, j, 1);
    PutInodeWord(b, k, ip, j, 2);
    forall x: nat | x <= NDIRECT ensures GetInode(r, j).addrs[x] == want.addrs[x] {
      PutInodeWord(b, k, ip, j, 3 + x);
    }
    assert GetInode(r, j).addrs == want.addrs;
  }

  // ----- inodes in memory and on disk -----

  /** Inode i lies below the free map, and unless it has changed in memory since, its
      block holds it. */
  predicate StoredAt(sb: Super, blocks: Blocks, ino: Inodes, dirty: set<nat>, i: nat) {
    i in ino ==>
      && InodeBlock(sb, i) < sb.bmapstart && InodeBlock(sb, i) < |blocks| && ino[i].typ < SHORT && ino[i].nlink < SHORT
      && (i !in dirty ==> GetInode(blocks[InodeBlock(sb, i)], i % IPB) == ino[i])
  }

  ghost predicate Stored(sb: Super, blocks: Blocks, ino: Inodes, dirty: set<nat>) {
    forall i: nat {:trigger StoredAt(sb, blocks, ino, dirty, i)} :: StoredAt(sb, blocks, ino, dirty, i)
  }

  lemma {:induction false} StoredHere(sb: Super, blocks: Blocks, ino: Inodes, dirty: set<nat>, i: nat)
    requires Stored(sb, blocks, ino, dirty) && i in ino
    ensures InodeBlock(sb, i) < sb.bmapstart && InodeBlock(sb, i) < |blocks|
    ensures ino[i].typ < SHORT && ino[i].nlink < SHORT
  {
    assert StoredAt(sb, blocks, ino, dirty, i);
  }

  /** A write at or above the free map touches no inode block. */
  lemma {:induction false} StoredKept(sb: Super, blocks: Blocks, ino: Inodes, dirty: set<nat>, b: nat, data: Block)
    requires Stored(sb, blocks, ino, dirty) && sb.bmapstart <= b < |blocks|
    ensures Stored(sb, blocks[b := data], ino, dirty)
  {
    var blocks' := blocks[b := data];
    forall i: nat ensures StoredAt(sb, blocks', ino, dirty, i) {
      assert StoredAt(sb, blocks, ino, dirty, i);
    }
  }

  /** Inode i changes in memory. */
  lemma {:induction false} StoredDirty(sb: Super, blocks: Blocks, ino: Inodes, dirty: set<nat>, i: nat, ip: Inode)
    requires Stored(sb, blocks, ino, dirty) && i in ino && ip.typ < SHORT && ip.nlink < SHORT
    ensures Stored(sb, blocks, ino[i := ip], dirty + {i})
  {
    var ino', dirty' := ino[i := ip], dirty + {i};
    forall j: nat ensures StoredAt(sb, blocks, ino', dirty', j) {
      assert StoredAt(sb, blocks, ino, dirty, j) && StoredAt(sb, blocks, ino, dirty, i);
    }
  }

  /** iupdate of inode i. */
  lemma {:induction false} StoredUpdate(sb: Super, blocks: Blocks, ino: Inodes, dirty: set<nat>, i: nat)
    requires Stored(sb, blocks, ino, dirty) && i in ino && Fits(ino[i]) && InodeBlock(sb, i) < |blocks|
    ensures var b := InodeBlock(sb, i);
      Stored(sb, blocks[b := PutInode(blocks[b], i % IPB, ino[i])], ino, dirty - {i})
  {
    var b := InodeBlock(sb, i);
    var blocks' := blocks[b := PutInode(blocks[b], i % IPB, ino[i])];
    var dirty' := dirty - {i};
    forall j: nat ensures StoredAt(sb, blocks', ino, dirty', j) {
      assert StoredAt(sb, blocks, ino, dirty, j);
      if InodeBlock(sb, j) == b {
        PutGetInode(blocks[b], i % IPB, ino[i], j % IPB);
        assert j % IPB == i % IPB ==> j == i;
      }
    }
  }

  // ----- what an operation logs -----

  /** log_write of a block. */
  datatype Put = Put(b: nat, data: Block)

  /** The blocks after these writes. */
  function Applied(base: Blocks, puts: seq<Put>): (r: Blocks)
    ensures |r| == |base|
  {
    if puts == [] then base
    else
      var n := |puts| - 1;
      var r := Applied(base, puts[..n]);
      if puts[n].b < |base| then r[puts[n].b := puts[n].data] else r
  }

  function Targets(puts: seq<Put>): (r: set<nat>) {
    if puts == [] then {} else Targets(puts[..|puts| - 1]) + {puts[|puts| - 1].b}
  }

  lemma {:induction false} AppliedNext(base: Blocks, puts: seq<Put>, p: Put)
    ensures Targets(puts + [p]) == Targets(puts) + {p.b}
    ensures Applied(base, puts + [p]) ==
      if p.b < |base| then Applied(base, puts)[p.b := p.data] else Applied(base, puts)
  {
    assert (puts + [p])[..|puts|] == puts;
  }
}
