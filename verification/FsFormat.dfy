/** The block map of kernel/fs.c: which slot of which inode names which block,
    who owns every block, and the bytes of a file. */
module FsFormat {
  import opened Bytes
  import opened Bitmap

  const NDIRECT: nat := 12
  const NINDIRECT: nat := 256
  const MAXFILE: nat := 268
  /** Slots of an inode: the direct ones, the indirect pointer, the entries of
      the indirect block. */
  const SLOTS: nat := 269

  type Blocks = seq<Block>

  /** The part of the super block that matters here: blocks below data hold the
      boot block, the super block, the log, the inodes and the free map. */
  datatype Super = Super(size: nat, inodestart: nat, bmapstart: nat, data: nat)

  datatype Inode = Inode(typ: nat, nlink: nat, size: nat, addrs: seq<nat>)

  type Inodes = map<nat, Inode>

  /** Unused: free. Meta: below the data area. Taken: just allocated. Slot: named
      by this slot of this inode. */
  datatype Owner = Unused | Meta | Taken | Slot(inum: nat, s: nat)

  type Owners = seq<Owner>

  predicate SuperOk(sb: Super, blocks: Blocks) {
    && |blocks| == sb.size && 0 < sb.data <= sb.size < TWO_31
    && sb.bmapstart + (sb.size + BPB - 1) / BPB <= sb.data
  }

  /** BBLOCK(b, sb) */
  function BitmapBlock(sb: Super, b: nat): (r: nat) { sb.bmapstart + b / BPB }

  lemma {:induction false} BitmapBelow(sb: Super, blocks: Blocks, b: nat)
    requires SuperOk(sb, blocks) && b < sb.size
    ensures BitmapBlock(sb, b) < sb.data
  {
  }

  /** IBLOCK(i, sb), with 16 inodes to a block */
  function InodeBlock(sb: Super, i: nat): (r: nat) { sb.inodestart + i / 16 }

  function Range(lo: nat, n: nat): (r: set<nat>)
    ensures |r| <= n && forall x: nat :: x in r <==> lo <= x < lo + n
  {
    if n == 0 then {} else Range(lo, n - 1) + {lo + n - 1}
  }

  /** The blocks of the free map. */
  function MapBlocks(sb: Super): (r: set<nat>) { Range(sb.bmapstart, (sb.size + BPB - 1) / BPB) }

  predicate Used(sb: Super, blocks: Blocks, b: nat) {
    BitmapBlock(sb, b) < |blocks| && GetBit(blocks[BitmapBlock(sb, b)], b % BPB)
  }

  // ----- slots -----

  predicate ShapeOk(ip: Inode) { |ip.addrs| == NDIRECT + 1 }

  /** The block number in slot s, 0 if there is none. */
  function SlotOf(blocks: Blocks, ip: Inode, s: nat): (a: nat)
    requires ShapeOk(ip) && s < SLOTS
  {
    if s <= NDIRECT then ip.addrs[s]
    else if ip.addrs[NDIRECT] == 0 || ip.addrs[NDIRECT] >= |blocks| then 0
    else GetU32(blocks[ip.addrs[NDIRECT]], s - NDIRECT - 1)
  }

  /** The slot that names block bn of the file. */
  function DataSlot(bn: nat): (s: nat)
    requires bn < MAXFILE
    ensures s < SLOTS && s != NDIRECT
  {
    if bn < NDIRECT then bn else bn + 1
  }

  predicate BitAt(sb: Super, blocks: Blocks, owner: Owners, b: nat) {
    b < sb.size && b < |owner| ==>
      (Used(sb, blocks, b) <==> owner[b] != Unused) && (owner[b] == Meta <==> b < sb.data)
  }

  predicate NamedAt(blocks: Blocks, ino: Inodes, owner: Owners, b: nat) {
    b < |owner| && owner[b].Slot? ==>
      var i, s := owner[b].inum, owner[b].s;
      i in ino && s < SLOTS && ShapeOk(ino[i]) && SlotOf(blocks, ino[i], s) == b
  }

  predicate SlotAt(blocks: Blocks, ino: Inodes, owner: Owners, i: nat, s: nat) {
    i in ino && s < SLOTS && ShapeOk(ino[i]) && SlotOf(blocks, ino[i], s) != 0 ==>
      var a := SlotOf(blocks, ino[i], s);
      a < |owner| && owner[a] == Slot(i, s)
  }

  predicate InodeAt(ino: Inodes, i: nat) {
    i in ino ==> ShapeOk(ino[i]) && ino[i].size <= MAXFILE * BSIZE
  }

  /** A bit of the free map is set exactly for the blocks below the data area,
      blocks just taken, and blocks that exactly one slot of one inode names. */
  ghost predicate Owned(sb: Super, blocks: Blocks, ino: Inodes, owner: Owners) {
    && SuperOk(sb, blocks) && |owner| == sb.size
    && (forall b: nat {:trigger BitAt(sb, blocks, owner, b)} :: BitAt(sb, blocks, owner, b))
    && (forall b: nat {:trigger NamedAt(blocks, ino, owner, b)} :: NamedAt(blocks, ino, owner, b))
    && (forall i: nat, s: nat {:trigger SlotAt(blocks, ino, owner, i, s)} :: SlotAt(blocks, ino, owner, i, s))
    && (forall i: nat {:trigger InodeAt(ino, i)} :: InodeAt(ino, i))
  }

  /** A free inode names no block and holds no byte. */
  predicate EmptyAt(blocks: Blocks, ino: Inodes, i: nat, s: nat) {
    i in ino && ino[i].typ == 0 && ShapeOk(ino[i]) && s < SLOTS ==> ino[i].size == 0 && SlotOf(blocks, ino[i], s) == 0
  }

  /** Every block below the size is there: no holes. */
  predicate WholeAt(blocks: Blocks, ino: Inodes, i: nat, bn: nat) {
    i in ino && ShapeOk(ino[i]) && bn < MAXFILE && bn * BSIZE < ino[i].size ==>
      SlotOf(blocks, ino[i], DataSlot(bn)) != 0
  }

  ghost predicate FsOk(sb: Super, blocks: Blocks, ino: Inodes, owner: Owners) {
    && Owned(sb, blocks, ino, owner)
    && (forall i: nat, s: nat {:trigger EmptyAt(blocks, ino, i, s)} :: EmptyAt(blocks, ino, i, s))
    && (forall i: nat, bn: nat {:trigger WholeAt(blocks, ino, i, bn)} :: WholeAt(blocks, ino, i, bn))
  }

  /** What a slot names is in the data area and marked, and no other slot names it. */
  lemma {:induction false} NamedOnce(sb: Super, blocks: Blocks, ino: Inodes, owner: Owners, i: nat, s: nat, j: nat,
      u: nat)
    requires Owned(sb, blocks, ino, owner) && i in ino && j in ino && s < SLOTS && u < SLOTS
    ensures ShapeOk(ino[i]) && ShapeOk(ino[j])
    ensures SlotOf(blocks, ino[i], s) != 0 ==>
      sb.data <= SlotOf(blocks, ino[i], s) < sb.size && Used(sb, blocks, SlotOf(blocks, ino[i], s))
    ensures SlotOf(blocks, ino[i], s) != 0 && SlotOf(blocks, ino[i], s) == SlotOf(blocks, ino[j], u) ==>
      i == j && s == u
  {
    assert InodeAt(ino, i) && InodeAt(ino, j) && SlotAt(blocks, ino, owner, i, s) && SlotAt(blocks, ino, owner, j, u);
    assert BitAt(sb, blocks, owner, SlotOf(blocks, ino[i], s));
  }

  predicate Names(blocks: Blocks, ino: Inodes, b: nat, i: nat, s: nat) {
    i in ino && s < SLOTS && ShapeOk(ino[i]) && SlotOf(blocks, ino[i], s) == b
  }

  /** No block is allocated without being stored in a slot. */
  ghost predicate NoTaken(owner: Owners) {
    forall b :: 0 <= b < |owner| ==> owner[b] != Taken
  }

  /** A data-area bit is set exactly if some slot of some inode names the block, and
      then a single one does. */
  lemma {:induction false} UsedIsNamed(sb: Super, blocks: Blocks, ino: Inodes, owner: Owners, b: nat)
    requires FsOk(sb, blocks, ino, owner) && NoTaken(owner) && sb.data <= b < sb.size
    ensures Used(sb, blocks, b) <==> exists i: nat, s: nat :: Names(blocks, ino, b, i, s)
    ensures forall i: nat, s: nat, j: nat, u: nat ::
      Names(blocks, ino, b, i, s) && Names(blocks, ino, b, j, u) ==> i == j && s == u
  {
    assert BitAt(sb, blocks, owner, b) && NamedAt(blocks, ino, owner, b);
    if Used(sb, blocks, b) {
      assert Names(blocks, ino, b, owner[b].inum, owner[b].s);
    }
    forall i: nat, s: nat | Names(blocks, ino, b, i, s) ensures owner[b] == Slot(i, s) {
      assert SlotAt(blocks, ino, owner, i, s);
    }
  }

  // ----- bytes -----

  function ByteAt(blocks: Blocks, ip: Inode, o: nat): (v: Byte)
    requires ShapeOk(ip) && o < MAXFILE * BSIZE
  {
    var a := SlotOf(blocks, ip, DataSlot(o / BSIZE));
    if a < |blocks| then blocks[a][o % BSIZE] else 0
  }

  /** The contents of a file. */
  function File(blocks: Blocks, ip: Inode): (f: seq<Byte>)
    requires ShapeOk(ip) && ip.size <= MAXFILE * BSIZE
    ensures |f| == ip.size
  {
    seq(ip.size, o requires 0 <= o < ip.size => ByteAt(blocks, ip, o))
  }

  /** The indirect block, if the inode has one. */
  function Indirect(ip: Inode): (r: set<nat>)
    requires ShapeOk(ip)
    ensures |r| <= 1
  {
    if ip.addrs[NDIRECT] == 0 then {} else {ip.addrs[NDIRECT]}
  }

  /** How many blocks the n bytes at off lie in. */
  function Span(off: nat, n: nat): (k: nat) {
    if n == 0 then 0 else (off + n - 1) / BSIZE - off / BSIZE + 1
  }
}
