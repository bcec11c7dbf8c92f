/** The records on disk, byte for byte: struct dinode and struct dirent of kernel/fs.h,
    struct logheader of kernel/log.c, with little-endian fields in the order declared. */
module Layout {
  import opened Bytes
  import opened LogFormat
  import opened FsFormat
  import opened FsDisk
  import Names
  import Dir

  /** The low n bytes of v, least significant first. */
  function Le(v: nat, n: nat): (r: seq<Byte>)
    ensures |r| == n
  {
    if n == 0 then [] else [v % 256] + Le(v / 256, n - 1)
  }

  /** An array of 32-bit fields. */
  function Words(ws: seq<nat>): (r: seq<Byte>)
    ensures |r| == 4 * |ws|
  {
    if ws == [] then [] else Words(ws[..|ws| - 1]) + Le(ws[|ws| - 1], 4)
  }

  lemma {:induction false} Le2(a: Byte, b: Byte)
    ensures Le(a + 256 * b, 2) == [a, b]
  {
    var v: int := a + 256 * b;
    assert v % 256 == a && v / 256 == b;
    assert Le(v / 256, 1) == [b] + Le(v / 256 / 256, 0);
  }

  lemma {:induction false} Le4(v: nat)
    ensures Le(v, 4) == Le(v, 2) + Le(v / SHORT, 2)
  {
    assert v / 256 / 256 == v / SHORT;
    assert Le(v / 256, 3) == [v / 256 % 256] + Le(v / 256 / 256, 2);
    assert Le(v / 256, 1) == [v / 256 % 256] + Le(v / 256 / 256, 0);
  }

  lemma {:induction false} LowBytes(v: nat)
    ensures Le(v, 2) == Le(v % SHORT, 2)
  {
    assert v % SHORT % 256 == v % 256 && v % SHORT / 256 == v / 256 % 256;
    assert Le(v / 256, 1) == [v / 256 % 256] + Le(v / 256 / 256, 0);
    assert Le(v % SHORT / 256, 1) == [v % SHORT / 256 % 256] + Le(v % SHORT / 256 / 256, 0);
  }

  lemma {:induction false} SplitWord(v: int, low: int, high: int)
    requires 0 <= low < SHORT && v == low + SHORT * high
    ensures v % SHORT == low && v / SHORT == high
  {
  }

  /** The halves of a word. */
  lemma {:induction false} Halves(b: seq<Byte>, i: nat)
    requires 4 * i + 4 <= |b|
    ensures b[4 * i..4 * i + 2] == Le(GetU32(b, i) % SHORT, 2)
    ensures b[4 * i + 2..4 * i + 4] == Le(GetU32(b, i) / SHORT, 2)
  {
    var b0: int, b1: int, b2: int, b3: int := b[4 * i], b[4 * i + 1], b[4 * i + 2], b[4 * i + 3];
    var v := GetU32(b, i);
    SplitWord(v, b0 + 256 * b1, b2 + 256 * b3);
    hide GetU32, Le;
    Le2(b0, b1);
    Le2(b2, b3);
  }

  lemma {:induction false} WordBytes(b: seq<Byte>, i: nat)
    requires 4 * i + 4 <= |b|
    ensures b[4 * i..4 * i + 4] == Le(GetU32(b, i), 4)
  {
    var v := GetU32(b, i);
    Halves(b, i);
    Le4(v);
    LowBytes(v);
    hide GetU32, Le;
    assert b[4 * i..4 * i + 4] == b[4 * i..4 * i + 2] + b[4 * i + 2..4 * i + 4];
  }

  lemma {:induction false} NoWords()
    ensures Words([]) == []
  {
  }

  lemma {:induction false} OneWord(ws: seq<nat>)
    requires ws != []
    ensures Words(ws) == Words(ws[..|ws| - 1]) + Le(ws[|ws| - 1], 4)
  {
  }

  lemma {:induction false} Joined(b: seq<Byte>, x: nat, y: nat, z: nat)
    requires x <= y <= z <= |b|
    ensures b[x..z] == b[x..y] + b[y..z]
  {
  }

  lemma {:induction false} WordsBytes(b: seq<Byte>, i: nat, ws: seq<nat>)
    requires 4 * (i + |ws|) <= |b| && forall j :: 0 <= j < |ws| ==> ws[j] == GetU32(b, i + j)
    ensures b[4 * i..4 * (i + |ws|)] == Words(ws)
    decreases |ws|
  {
    hide GetU32, Le, Words;
    if ws == [] {
      NoWords();
    } else {
      var n := |ws| - 1;
      assert forall j :: 0 <= j < n ==> ws[..n][j] == ws[j];
      WordsBytes(b, i, ws[..n]);
      assert ws[n] == GetU32(b, i + n);
      WordBytes(b, i + n);
      Joined(b, 4 * i, 4 * (i + n), 4 * (i + n) + 4);
      OneWord(ws);
    }
  }

  lemma {:induction false} HalvesAt(b: seq<Byte>, p: nat, i: nat)
    requires p == 4 * i && p + 4 <= |b|
    ensures b[p..p + 2] == Le(GetU32(b, i) % SHORT, 2) && b[p + 2..p + 4] == Le(GetU32(b, i) / SHORT, 2)
  {
    hide GetU32, Le;
    Halves(b, i);
  }

  lemma {:induction false} WordAt(b: seq<Byte>, p: nat, i: nat)
    requires p == 4 * i && p + 4 <= |b|
    ensures b[p..p + 4] == Le(GetU32(b, i), 4)
  {
    hide GetU32, Le;
    WordBytes(b, i);
  }

  lemma {:induction false} WordsAt(b: seq<Byte>, p: nat, q: nat, i: nat, ws: seq<nat>)
    requires p == 4 * i && q == p + 4 * |ws| && q <= |b| && forall j :: 0 <= j < |ws| ==> ws[j] == GetU32(b, i + j)
    ensures b[p..q] == Words(ws)
  {
    hide GetU32, Words;
    WordsBytes(b, i, ws);
  }

  lemma {:induction false} Fields(b: Block, k: nat)
    requires k < IPB
    ensures var ip, w := GetInode(b, k), DINODE * k;
      && ip.typ == GetU32(b, w) % SHORT && ip.nlink == GetU32(b, w + 1) / SHORT && ip.size == GetU32(b, w + 2)
      && |ip.addrs| == 13 && forall j :: 0 <= j < |ip.addrs| ==> ip.addrs[j] == GetU32(b, w + 3 + j)
  {
    hide GetU32;
  }

  lemma {:induction false} TypeBytes(b: Block, k: nat)
    requires k < IPB
    ensures b[64 * k..64 * k + 2] == Le(GetInode(b, k).typ, 2)
  {
    Fields(b, k);
    hide *;
    HalvesAt(b, 64 * k, DINODE * k);
  }

  lemma {:induction false} LinkBytes(b: Block, k: nat)
    requires k < IPB
    ensures b[64 * k + 6..64 * k + 8] == Le(GetInode(b, k).nlink, 2)
  {
    Fields(b, k);
    hide *;
    HalvesAt(b, 64 * k + 4, DINODE * k + 1);
  }

  lemma {:induction false} SizeBytes(b: Block, k: nat)
    requires k < IPB
    ensures b[64 * k + 8..64 * k + 12] == Le(GetInode(b, k).size, 4)
  {
    Fields(b, k);
    hide *;
    WordAt(b, 64 * k + 8, DINODE * k + 2);
  }

  lemma {:induction false} AddrBytes(b: Block, k: nat)
    requires k < IPB
    ensures b[64 * k + 12..64 * k + 64] == Words(GetInode(b, k).addrs)
  {
    Fields(b, k);
    hide *;
    WordsAt(b, 64 * k + 12, 64 * k + 64, DINODE * k + 3, GetInode(b, k).addrs);
  }

  /** An inode is stored as a struct dinode: type, major, minor, nlink, size, addrs. */
  lemma {:induction false} InodeBytes(b: Block, k: nat)
    requires k < IPB
    ensures var ip, p := GetInode(b, k), 64 * k;
      && b[p..p + 2] == Le(ip.typ, 2) && b[p + 6..p + 8] == Le(ip.nlink, 2)
      && b[p + 8..p + 12] == Le(ip.size, 4) && b[p + 12..p + 64] == Words(ip.addrs)
  {
    hide *;
    TypeBytes(b, k);
    LinkBytes(b, k);
    SizeBytes(b, k);
    AddrBytes(b, k);
  }

  /** The log header is stored as a struct logheader: n and n block numbers. */
  lemma {:induction false} HeadBytes(b: Block)
    requires 0 <= HeadCount(b) <= LOGSIZE
    ensures var lh := GetHead(b); b[..4 + 4 * |lh|] == Le(|lh|, 4) + Words(lh)
  {
    var lh := GetHead(b);
    WordBytes(b, 0);
    WordsBytes(b, 1, lh);
    hide GetU32, Le, Words;
    assert b[..4 + 4 * |lh|] == b[0..4] + b[4..4 + 4 * |lh|];
  }

  /** A directory entry is stored as a struct dirent: inum and name. */
  lemma {:induction false} DirentBytes(f: seq<Byte>, k: nat)
    requires 16 * k + 16 <= |f|
    ensures f[16 * k..16 * k + 16] == Le(Names.Inum(f, k), 2) + Names.Name(f, k)
  {
    Le2(f[16 * k], f[16 * k + 1]);
  }

  /** dirlink keeps the low 16 bits of an inode number. */
  lemma {:induction false} NewDirentBytes(name: seq<Byte>, inum: nat)
    ensures Dir.Dirent(name, inum) == Le(inum, 2) + Names.Padded(name, 14)
  {
    assert Le(inum / 256, 1) == [inum / 256 % 256] + Le(inum / 256 / 256, 0);
  }

  lemma {:induction false} SameWords(b: Block, r: Block, p: nat)
    requires p < BSIZE && GetU32(b, p / 4) == GetU32(r, p / 4)
    ensures r[p] == b[p]
  {
    var i := p / 4;
    WordBytes(b, i);
    WordBytes(r, i);
    hide GetU32, Le;
    assert b[4 * i..4 * i + 4][p % 4] == b[p] && r[4 * i..4 * i + 4][p % 4] == r[p];
  }

  /** iupdate changes no byte outside its inode, nor the major and minor numbers in it. */
  lemma {:induction false} OtherBytes(b: Block, k: nat, ip: Inode, p: nat)
    requires k < IPB && Fits(ip) && p < BSIZE && (p < 64 * k || 64 * k + 2 <= p < 64 * k + 6 || p >= 64 * k + 64)
    ensures PutInode(b, k, ip)[p] == b[p]
  {
    var r, w := PutInode(b, k, ip), p / 4;
    PutInodeWord(b, k, ip, w / DINODE, w % DINODE);
    hide GetU32, PutInode, Fits;
    if w == DINODE * k {
      SameHalves(b, r, w, p);
    } else if w == DINODE * k + 1 {
      SameHalves(b, r, w, p);
    } else {
      SameWords(b, r, p);
    }
  }

  lemma {:induction false} SameHalves(b: Block, r: Block, w: nat, p: nat)
    requires 4 * w <= p < 4 * w + 4 <= BSIZE
    requires if p < 4 * w + 2 then GetU32(b, w) % SHORT == GetU32(r, w) % SHORT
             else GetU32(b, w) / SHORT == GetU32(r, w) / SHORT
    ensures r[p] == b[p]
  {
    Halves(b, w);
    Halves(r, w);
    hide *;
    if p < 4 * w + 2 {
      assert b[4 * w..4 * w + 2][p - 4 * w] == b[p] && r[4 * w..4 * w + 2][p - 4 * w] == r[p];
    } else {
      assert b[4 * w + 2..4 * w + 4][p - 4 * w - 2] == b[p] && r[4 * w + 2..4 * w + 4][p - 4 * w - 2] == r[p];
    }
  }
}
