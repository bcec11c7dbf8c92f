/** The elementary changes the operations of kernel/fs.c are made of, and what
    each of them keeps. */
module FsSteps {
  import opened Bytes
  import opened Bitmap
  import opened FsFormat

  // ----- what a change keeps -----

  predicate KeepsAt(blocks: Blocks, ino: Inodes, blocks': Blocks, ino': Inodes, j: nat, u: nat) {
    j in ino && u < SLOTS && ShapeOk(ino[j]) && SlotOf(blocks, ino[j], u) != 0 ==>
      var a := SlotOf(blocks, ino[j], u);
      && j in ino' && ShapeOk(ino'[j]) && SlotOf(blocks', ino'[j], u) == a
      && (u != NDIRECT ==> a < |blocks| && a < |blocks'| && blocks'[a] == blocks[a])
  }

  /** Every slot in use still names the same block, with the same data in it. */
  ghost predicate Keeps(blocks: Blocks, ino: Inodes, blocks': Blocks, ino': Inodes) {
    forall j: nat, u: nat {:trigger KeepsAt(blocks, ino, blocks', ino', j, u)} ::
      KeepsAt(blocks, ino, blocks', ino', j, u)
  }

  predicate KeepsOtherAt(blocks: Blocks, ino: Inodes, blocks': Blocks, ino': Inodes, i: nat, j: nat, u: nat) {
    j != i ==> KeepsAt(blocks, ino, blocks', ino', j, u)
  }

  /** The same for every inode but i. */
  ghost predicate KeepsOthers(blocks: Blocks, ino: Inodes, blocks': Blocks, ino': Inodes, i: nat) {
    forall j: nat, u: nat {:trigger KeepsOtherAt(blocks, ino, blocks', ino', i, j, u)} ::
      KeepsOtherAt(blocks, ino, blocks', ino', i, j, u)
  }

  /** Only the slots of inode i differ, not its type, links or size. */
  predicate SameBut(ino: Inodes, ino': Inodes, i: nat) {
    && i in ino && i in ino' && ino' == ino[i := ino'[i]]
    && ino'[i].typ == ino[i].typ && ino'[i].nlink == ino[i].nlink && ino'[i].size == ino[i].size
  }

  lemma {:induction false} KeepsTrans(b0: Blocks, i0: Inodes, b1: Blocks, i1: Inodes, b2: Blocks, i2: Inodes)
    requires Keeps(b0, i0, b1, i1) && Keeps(b1, i1, b2, i2)
    ensures Keeps(b0, i0, b2, i2)
  {
    forall j: nat, u: nat ensures KeepsAt(b0, i0, b2, i2, j, u) {
      assert KeepsAt(b0, i0, b1, i1, j, u) && KeepsAt(b1, i1, b2, i2, j, u);
    }
  }

  lemma {:induction false} KeepsRefl(sb: Super, blocks: Blocks, ino: Inodes, owner: Owners)
    requires Owned(sb, blocks, ino, owner)
    ensures Keeps(blocks, ino, blocks, ino)
  {
    forall j: nat, u: nat ensures KeepsAt(blocks, ino, blocks, ino, j, u) {
      assert SlotAt(blocks, ino, owner, j, u);
    }
  }

  /** A file whose slots and size are kept keeps its contents. */
  lemma {:induction false} FileKept(sb: Super, blocks: Blocks, ino: Inodes, owner: Owners, blocks': Blocks,
      ino': Inodes, j: nat)
    requires FsOk(sb, blocks, ino, owner) && j in ino && j in ino' && ino'[j].size == ino[j].size
    requires forall u: nat {:trigger KeepsAt(blocks, ino, blocks', ino', j, u)} ::
      KeepsAt(blocks, ino, blocks', ino', j, u)
    requires ShapeOk(ino'[j])
    ensures ShapeOk(ino[j]) && ino[j].size <= MAXFILE * BSIZE && File(blocks', ino'[j]) == File(blocks, ino[j])
  {
    assert InodeAt(ino, j);
    forall o: nat | o < ino[j].size ensures ByteAt(blocks', ino'[j], o) == ByteAt(blocks, ino[j], o) {
      assert WholeAt(blocks, ino, j, o / BSIZE);
      assert KeepsAt(blocks, ino, blocks', ino', j, DataSlot(o / BSIZE));
    }
  }

  // ----- the free map -----

  /** Blocks at or above the data area do not hold the free map. */
  lemma {:induction false} BitsSame(sb: Super, blocks: Blocks, blocks': Blocks, owner: Owners, owner': Owners, b: nat)
    requires SuperOk(sb, blocks) && |blocks'| == |blocks| && (forall x :: 0 <= x < sb.data ==> blocks'[x] == blocks[x])
    requires BitAt(sb, blocks, owner, b) && |owner| == |owner'| == sb.size
    requires b < sb.size ==> (owner'[b] == Unused <==> owner[b] == Unused) && (owner'[b] == Meta <==> owner[b] == Meta)
    ensures BitAt(sb, blocks', owner', b)
  {
    if b < sb.size { BitmapBelow(sb, blocks, b); }
  }

  /** The free map with the bit of b changed. */
  function MarkBlocks(sb: Super, blocks: Blocks, b: nat, on: bool): (r: Blocks)
    requires SuperOk(sb, blocks) && b < sb.size
    ensures |r| == |blocks|
  {
    BitmapBelow(sb, blocks, b);
    blocks[BitmapBlock(sb, b) := PutBit(blocks[BitmapBlock(sb, b)], b % BPB, on)]
  }

  lemma {:induction false} MarkUsed(sb: Super, blocks: Blocks, b: nat, on: bool, x: nat)
    requires SuperOk(sb, blocks) && b < sb.size && x < sb.size
    ensures Used(sb, MarkBlocks(sb, blocks, b, on), x) == if x == b then on else Used(sb, blocks, x)
  {
    BitmapBelow(sb, blocks, b);
    BitmapBelow(sb, blocks, x);
    if BitmapBlock(sb, x) == BitmapBlock(sb, b) {
      PutGetBit(blocks[BitmapBlock(sb, b)], b % BPB, on, x % BPB);
    }
  }

  predicate SlotsSameAt(blocks: Blocks, ino: Inodes, blocks': Blocks, j: nat, u: nat) {
    j in ino && u < SLOTS && ShapeOk(ino[j]) ==> SlotOf(blocks', ino[j], u) == SlotOf(blocks, ino[j], u)
  }

  ghost predicate SlotsAllSame(blocks: Blocks, ino: Inodes, blocks': Blocks) {
    forall j: nat, u: nat {:trigger SlotsSameAt(blocks, ino, blocks', j, u)} :: SlotsSameAt(blocks, ino, blocks', j, u)
  }

  predicate OwnedSame(owner: Owners, blocks: Blocks, blocks': Blocks, b: nat) {
    b < |owner| && b < |blocks| && b < |blocks'| && owner[b].Slot? ==> blocks'[b] == blocks[b]
  }

  /** As long as blocks that slots name are untouched, every slot reads the same. */
  lemma {:induction false} SlotsSame(sb: Super, blocks: Blocks, ino: Inodes, owner: Owners, blocks': Blocks, j: nat,
      u: nat)
    requires Owned(sb, blocks, ino, owner) && |blocks'| == |blocks|
    requires forall b: nat {:trigger OwnedSame(owner, blocks, blocks', b)} :: OwnedSame(owner, blocks, blocks', b)
    ensures SlotsSameAt(blocks, ino, blocks', j, u) && KeepsAt(blocks, ino, blocks', ino, j, u)
  {
    if j in ino && u < SLOTS && ShapeOk(ino[j]) {
      assert SlotAt(blocks, ino, owner, j, NDIRECT) && SlotAt(blocks, ino, owner, j, u);
      assert OwnedSame(owner, blocks, blocks', ino[j].addrs[NDIRECT]);
      assert OwnedSame(owner, blocks, blocks', SlotOf(blocks, ino[j], u));
    }
  }

  /** Blocks that no slot names change; owners change only between Unused and
      Taken, as the free map says. */
  lemma {:induction false} LooseBlocks(sb: Super, blocks: Blocks, ino: Inodes, owner: Owners, blocks': Blocks,
      owner': Owners)
    requires Owned(sb, blocks, ino, owner) && |blocks'| == |blocks| && |owner'| == |owner|
    requires forall b: nat {:trigger OwnedSame(owner, blocks, blocks', b)} :: OwnedSame(owner, blocks, blocks', b)
    requires forall b :: 0 <= b < |owner| ==> owner'[b] == owner[b] || (!owner[b].Slot? && !owner'[b].Slot?)
    requires forall b: nat {:trigger BitAt(sb, blocks', owner', b)} :: BitAt(sb, blocks', owner', b)
    ensures Owned(sb, blocks', ino, owner') && Keeps(blocks, ino, blocks', ino) && SlotsAllSame(blocks, ino, blocks')
    ensures FsOk(sb, blocks, ino, owner) ==> FsOk(sb, blocks', ino, owner')
  {
    forall j: nat, u: nat ensures SlotsSameAt(blocks, ino, blocks', j, u) && KeepsAt(blocks, ino, blocks', ino, j, u)
      && SlotAt(blocks', ino, owner', j, u) {
      SlotsSame(sb, blocks, ino, owner, blocks', j, u);
      assert SlotAt(blocks, ino, owner, j, u);
    }
    forall b: nat ensures NamedAt(blocks', ino, owner', b) {
      assert NamedAt(blocks, ino, owner, b);
      if b < |owner| && owner[b].Slot? { assert SlotsSameAt(blocks, ino, blocks', owner[b].inum, owner[b].s); }
    }
    if FsOk(sb, blocks, ino, owner) {
      forall j: nat, u: nat ensures EmptyAt(blocks', ino, j, u) {
        assert EmptyAt(blocks, ino, j, u) && SlotsSameAt(blocks, ino, blocks', j, u);
      }
      forall j: nat, bn: nat ensures WholeAt(blocks', ino, j, bn) {
        assert WholeAt(blocks, ino, j, bn);
        if bn < MAXFILE { assert SlotsSameAt(blocks, ino, blocks', j, DataSlot(bn)); }
      }
    }
  }

  /** balloc: a free block is marked in the free map and zeroed. */
  lemma {:induction false} TakeBlock(sb: Super, blocks: Blocks, ino: Inodes, owner: Owners, b: nat, blocks': Blocks,
      owner': Owners, z: Block)
    requires Owned(sb, blocks, ino, owner) && b < sb.size && owner[b] == Unused
    requires blocks' == MarkBlocks(sb, blocks, b, true)[b := z] && owner' == owner[b := Taken]
    ensures Owned(sb, blocks', ino, owner') && Keeps(blocks, ino, blocks', ino) && SlotsAllSame(blocks, ino, blocks')
    ensures FsOk(sb, blocks, ino, owner) ==> FsOk(sb, blocks', ino, owner')
  {
    BitmapBelow(sb, blocks, b);
    assert BitAt(sb, blocks, owner, b) && BitAt(sb, blocks, owner, BitmapBlock(sb, b));
    forall x: nat ensures OwnedSame(owner, blocks, blocks', x) {
    }
    forall x: nat ensures BitAt(sb, blocks', owner', x) {
      assert BitAt(sb, blocks, owner, x);
      if x < sb.size {
        MarkUsed(sb, blocks, b, true, x);
        BitmapBelow(sb, blocks, x);
      }
    }
    LooseBlocks(sb, blocks, ino, owner, blocks', owner');
  }

  /** bfree of a block no slot names any more. */
  lemma {:induction false} GiveBlock(sb: Super, blocks: Blocks, ino: Inodes, owner: Owners, b: nat, blocks': Blocks,
      owner': Owners)
    requires Owned(sb, blocks, ino, owner) && b < sb.size && owner[b] == Taken
    requires blocks' == MarkBlocks(sb, blocks, b, false) && owner' == owner[b := Unused]
    ensures Used(sb, blocks, b) && Owned(sb, blocks', ino, owner') && Keeps(blocks, ino, blocks', ino)
      && SlotsAllSame(blocks, ino, blocks')
  {
    BitmapBelow(sb, blocks, b);
    assert BitAt(sb, blocks, owner, b) && BitAt(sb, blocks, owner, BitmapBlock(sb, b));
    forall x: nat ensures OwnedSame(owner, blocks, blocks', x) {
    }
    forall x: nat ensures BitAt(sb, blocks', owner', x) {
      assert BitAt(sb, blocks, owner, x);
      if x < sb.size { MarkUsed(sb, blocks, b, false, x); }
    }
    LooseBlocks(sb, blocks, ino, owner, blocks', owner');
  }

  // ----- slots -----

  /** The blocks after v is stored in slot s: an entry lies in the indirect block. */
  function SlotBlocks(blocks: Blocks, ip: Inode, s: nat, v: nat): (r: Blocks)
    requires ShapeOk(ip) && s < SLOTS && v < TWO_32 && (s > NDIRECT ==> ip.addrs[NDIRECT] < |blocks|)
    ensures |r| == |blocks|
  {
    if s <= NDIRECT then blocks
    else blocks[ip.addrs[NDIRECT] := PutU32(blocks[ip.addrs[NDIRECT]], s - NDIRECT - 1, v)]
  }

  /** The inode after v is stored in slot s. */
  function SlotInode(ip: Inode, s: nat, v: nat): (r: Inode)
    requires ShapeOk(ip) && s < SLOTS
    ensures ShapeOk(r)
  {
    if s <= NDIRECT then ip.(addrs := ip.addrs[s := v]) else ip
  }

  predicate NoEntry(blocks: Blocks, ip: Inode, u: nat) {
    ShapeOk(ip) && NDIRECT < u < SLOTS ==> SlotOf(blocks, ip, u) == 0
  }

  /** Storing to the indirect pointer is sound while the inode has no entries
      and the new indirect block, if any, has none either. */
  ghost predicate CanSet(sb: Super, blocks: Blocks, ino: Inodes, i: nat, s: nat, v: nat) {
    && i in ino && ShapeOk(ino[i]) && s < SLOTS && v < |blocks| && |blocks| == sb.size < TWO_31
    && (s > NDIRECT ==> 0 < ino[i].addrs[NDIRECT] < |blocks|)
    && (s == NDIRECT ==>
          && (forall u: nat {:trigger NoEntry(blocks, ino[i], u)} :: NoEntry(blocks, ino[i], u))
          && (v != 0 ==> forall k: nat {:trigger GetU32(blocks[v], k)} :: k < NINDIRECT ==> GetU32(blocks[v], k) == 0))
  }

  predicate SetAt(blocks: Blocks, ino: Inodes, blocks': Blocks, ino': Inodes, i: nat, s: nat, v: nat, j: nat, u: nat) {
    j in ino && u < SLOTS && ShapeOk(ino[j]) ==>
      j in ino' && ShapeOk(ino'[j]) && SlotOf(blocks', ino'[j], u) == if j == i
        && u == s then v else SlotOf(blocks, ino[j], u)
  }

  /** Storing one slot changes that slot and no other slot of any inode. */
  lemma {:induction false} SetSlot(sb: Super, blocks: Blocks, ino: Inodes, owner: Owners, i: nat, s: nat, v: nat,
      j: nat, u: nat)
    requires Owned(sb, blocks, ino, owner) && CanSet(sb, blocks, ino, i, s, v)
    ensures SetAt(blocks, ino, SlotBlocks(blocks, ino[i], s, v), ino[i := SlotInode(ino[i], s, v)], i, s, v, j, u)
  {
    if j in ino && u < SLOTS && ShapeOk(ino[j]) {
      assert SlotAt(blocks, ino, owner, i, NDIRECT) && SlotAt(blocks, ino, owner, j, NDIRECT);
      if s > NDIRECT {
        GetPut(blocks[ino[i].addrs[NDIRECT]], s - NDIRECT - 1, v);
      } else if s == NDIRECT && j == i && u > NDIRECT {
        assert NoEntry(blocks, ino[i], u);
        assert v != 0 ==> GetU32(blocks[v], u - NDIRECT - 1) == 0;
      }
    }
  }

  /** The free map is not in the indirect block. */
  lemma {:induction false} SetSlotBits(sb: Super, blocks: Blocks, ino: Inodes, owner: Owners, owner': Owners, i: nat,
      s: nat, v: nat, b: nat)
    requires Owned(sb, blocks, ino, owner) && CanSet(sb, blocks, ino, i, s, v) && |owner'| == |owner|
    requires b < sb.size ==> (owner'[b] == Unused <==> owner[b] == Unused) && (owner'[b] == Meta <==> owner[b] == Meta)
    ensures BitAt(sb, SlotBlocks(blocks, ino[i], s, v), owner', b)
  {
    assert BitAt(sb, blocks, owner, b) && SlotAt(blocks, ino, owner, i, NDIRECT);
    assert BitAt(sb, blocks, owner, ino[i].addrs[NDIRECT]);
    BitsSame(sb, blocks, SlotBlocks(blocks, ino[i], s, v), owner, owner', b);
  }

  /** Data in blocks that slots name is not touched. */
  lemma {:induction false} SetSlotKeeps(sb: Super, blocks: Blocks, ino: Inodes, owner: Owners, i: nat, s: nat, v: nat,
      j: nat, u: nat)
    requires Owned(sb, blocks, ino, owner) && CanSet(sb, blocks, ino, i, s, v)
    requires j == i && u == s ==> u < SLOTS && SlotOf(blocks, ino[i], s) == 0
    ensures KeepsAt(blocks, ino, SlotBlocks(blocks, ino[i], s, v), ino[i := SlotInode(ino[i], s, v)], j, u)
  {
    SetSlot(sb, blocks, ino, owner, i, s, v, j, u);
    assert SlotAt(blocks, ino, owner, i, NDIRECT) && SlotAt(blocks, ino, owner, j, u);
  }

  /** A block just taken is stored in an empty slot. */
  lemma {:induction false} Attach(sb: Super, blocks: Blocks, ino: Inodes, owner: Owners, i: nat, s: nat, v: nat,
      blocks': Blocks, ino': Inodes, owner': Owners)
    requires Owned(sb, blocks, ino, owner) && CanSet(sb, blocks, ino, i, s, v) && v != 0 && owner[v] == Taken
      && SlotOf(blocks, ino[i], s) == 0
    requires blocks' == SlotBlocks(blocks, ino[i], s, v) && ino' == ino[i := SlotInode(ino[i], s, v)]
      && owner' == owner[v := Slot(i, s)]
    ensures Owned(sb, blocks', ino', owner') && Keeps(blocks, ino, blocks', ino') && SameBut(ino, ino', i)
      && SlotOf(blocks', ino'[i], s) == v
    ensures forall j: nat, u: nat {:trigger SetAt(blocks, ino, blocks', ino', i, s, v, j, u)} ::
      SetAt(blocks, ino, blocks', ino', i, s, v, j, u)
  {
    forall j: nat, u: nat ensures SetAt(blocks, ino, blocks', ino', i, s, v, j, u)
      && SlotAt(blocks', ino', owner', j, u) && KeepsAt(blocks, ino, blocks', ino', j, u) {
      SetSlot(sb, blocks, ino, owner, i, s, v, j, u);
      SetSlotKeeps(sb, blocks, ino, owner, i, s, v, j, u);
      assert SlotAt(blocks, ino, owner, j, u) && InodeAt(ino, j);
    }
    forall b: nat ensures BitAt(sb, blocks', owner', b) && NamedAt(blocks', ino', owner', b) {
      assert BitAt(sb, blocks, owner, v);
      SetSlotBits(sb, blocks, ino, owner, owner', i, s, v, b);
      assert NamedAt(blocks, ino, owner, b) && SetAt(blocks, ino, blocks', ino', i, s, v, i, s);
      if b < |owner| && owner[b].Slot? { assert SetAt(blocks, ino, blocks', ino', i, s, v, owner[b].inum, owner[b].s); }
    }
    forall j: nat ensures InodeAt(ino', j) {
      assert InodeAt(ino, j);
    }
    assert SetAt(blocks, ino, blocks', ino', i, s, v, i, s);
  }

  /** A slot is cleared; the block it named is in hand. */
  lemma {:induction false} Detach(sb: Super, blocks: Blocks, ino: Inodes, owner: Owners, i: nat, s: nat,
      blocks': Blocks, ino': Inodes, owner': Owners)
    requires Owned(sb, blocks, ino, owner) && CanSet(sb, blocks, ino, i, s, 0) && SlotOf(blocks, ino[i], s) != 0
    requires blocks' == SlotBlocks(blocks, ino[i], s, 0) && ino' == ino[i := SlotInode(ino[i], s, 0)]
    requires |owner'| == |owner| && SlotOf(blocks, ino[i], s) < |owner|
      && owner' == owner[SlotOf(blocks, ino[i], s) := Taken]
    ensures Owned(sb, blocks', ino', owner') && KeepsOthers(blocks, ino, blocks', ino', i) && SameBut(ino, ino', i)
    ensures forall j: nat, u: nat {:trigger SetAt(blocks, ino, blocks', ino', i, s, 0, j, u)} ::
      SetAt(blocks, ino, blocks', ino', i, s, 0, j, u)
  {
    var v := SlotOf(blocks, ino[i], s);
    assert SlotAt(blocks, ino, owner, i, s);
    forall j: nat, u: nat ensures SetAt(blocks, ino, blocks', ino', i, s, 0, j, u)
      && SlotAt(blocks', ino', owner', j, u) && KeepsOtherAt(blocks, ino, blocks', ino', i, j, u) {
      SetSlot(sb, blocks, ino, owner, i, s, 0, j, u);
      if j != i { SetSlotKeeps(sb, blocks, ino, owner, i, s, 0, j, u); }
      assert SlotAt(blocks, ino, owner, j, u) && InodeAt(ino, j);
    }
    forall b: nat ensures BitAt(sb, blocks', owner', b) && NamedAt(blocks', ino', owner', b) {
      SetSlotBits(sb, blocks, ino, owner, owner', i, s, 0, b);
      assert NamedAt(blocks, ino, owner, b);
      if b < |owner| && owner[b].Slot? { assert SetAt(blocks, ino, blocks', ino', i, s, 0, owner[b].inum, owner[b].s); }
    }
    forall j: nat ensures InodeAt(ino', j) {
      assert InodeAt(ino, j);
    }
  }

  /** What a new block adds breaks neither the free inodes nor the files. */
  lemma {:induction false} AttachOk(sb: Super, blocks: Blocks, ino: Inodes, owner: Owners, i: nat, s: nat, v: nat,
      blocks': Blocks, ino': Inodes, owner': Owners)
    requires FsOk(sb, blocks, ino, owner) && Owned(sb, blocks', ino', owner') && SameBut(ino, ino', i)
      && ino[i].typ != 0 && Keeps(blocks, ino, blocks', ino')
    requires forall j: nat, u: nat {:trigger SetAt(blocks, ino, blocks', ino', i, s, v, j, u)} ::
      SetAt(blocks, ino, blocks', ino', i, s, v, j, u)
    ensures FsOk(sb, blocks', ino', owner')
  {
    forall j: nat, u: nat ensures EmptyAt(blocks', ino', j, u) {
      assert EmptyAt(blocks, ino, j, u) && SetAt(blocks, ino, blocks', ino', i, s, v, j, u);
    }
    forall j: nat, bn: nat ensures WholeAt(blocks', ino', j, bn) {
      assert WholeAt(blocks, ino, j, bn) && InodeAt(ino, j);
      if bn < MAXFILE { assert KeepsAt(blocks, ino, blocks', ino', j, DataSlot(bn)); }
    }
  }

  // ----- contents -----

  /** The data of one block of a file changes; no slot does. */
  lemma {:induction false} WriteData(sb: Super, blocks: Blocks, ino: Inodes, owner: Owners, i: nat, s: nat, blk: Block,
      blocks': Blocks)
    requires FsOk(sb, blocks, ino, owner) && i in ino && s < SLOTS && s != NDIRECT && ShapeOk(ino[i])
      && SlotOf(blocks, ino[i], s) != 0
    requires SlotOf(blocks, ino[i], s) < |blocks| && blocks' == blocks[SlotOf(blocks, ino[i], s) := blk]
    ensures FsOk(sb, blocks', ino, owner)
    ensures SlotsAllSame(blocks, ino, blocks')
    ensures forall j: nat, u: nat {:trigger KeepsAt(blocks, ino, blocks', ino, j, u)} :: !(j == i && u == s) ==>
      KeepsAt(blocks, ino, blocks', ino, j, u)
  {
    var a := SlotOf(blocks, ino[i], s);
    assert SlotAt(blocks, ino, owner, i, s) && BitAt(sb, blocks, owner, a);
    forall j: nat, u: nat ensures SlotsSameAt(blocks, ino, blocks', j, u) && SlotAt(blocks', ino, owner, j, u)
      && EmptyAt(blocks', ino, j, u) {
      assert SlotAt(blocks, ino, owner, j, NDIRECT) && SlotAt(blocks, ino, owner, j, u) && EmptyAt(blocks, ino, j, u);
    }
    forall j: nat, u: nat | !(j == i && u == s) ensures KeepsAt(blocks, ino, blocks', ino, j, u) {
      assert SlotAt(blocks, ino, owner, j, u) && SlotsSameAt(blocks, ino, blocks', j, u);
    }
    forall b: nat ensures BitAt(sb, blocks', owner, b) && NamedAt(blocks', ino, owner, b) {
      assert BitAt(sb, blocks, owner, b) && NamedAt(blocks, ino, owner, b);
      BitsSame(sb, blocks, blocks', owner, owner, b);
      if b < |owner| && owner[b].Slot? { assert SlotsSameAt(blocks, ino, blocks', owner[b].inum, owner[b].s); }
    }
    forall j: nat, bn: nat ensures WholeAt(blocks', ino, j, bn) {
      assert WholeAt(blocks, ino, j, bn);
      if bn < MAXFILE { assert SlotsSameAt(blocks, ino, blocks', j, DataSlot(bn)); }
    }
  }

  predicate OtherAt(blocks: Blocks, ino: Inodes, blocks': Blocks, ino': Inodes, i: nat, j: nat) {
    j in ino && j != i && InodeAt(ino, j) ==>
      j in ino' && ino'[j] == ino[j] && File(blocks', ino'[j]) == File(blocks, ino[j])
  }

  /** Every file but i is exactly as before. */
  ghost predicate OthersSame(blocks: Blocks, ino: Inodes, blocks': Blocks, ino': Inodes, i: nat) {
    forall j: nat {:trigger OtherAt(blocks, ino, blocks', ino', i, j)} :: OtherAt(blocks, ino, blocks', ino', i, j)
  }

  lemma {:induction false} OthersKept(sb: Super, blocks: Blocks, ino: Inodes, owner: Owners, blocks': Blocks,
      ino': Inodes, i: nat)
    requires FsOk(sb, blocks, ino, owner) && KeepsOthers(blocks, ino, blocks', ino', i) && i in ino'
      && ino' == ino[i := ino'[i]]
    ensures OthersSame(blocks, ino, blocks', ino', i)
  {
    forall j: nat ensures OtherAt(blocks, ino, blocks', ino', i, j) {
      if j in ino && j != i && InodeAt(ino, j) {
        forall u: nat ensures KeepsAt(blocks, ino, blocks', ino', j, u) {
          assert KeepsOtherAt(blocks, ino, blocks', ino', i, j, u);
        }
        FileKept(sb, blocks, ino, owner, blocks', ino', j);
      }
    }
  }

  lemma {:induction false} KeepsIsOthers(blocks: Blocks, ino: Inodes, blocks': Blocks, ino': Inodes, i: nat)
    requires Keeps(blocks, ino, blocks', ino')
    ensures KeepsOthers(blocks, ino, blocks', ino', i)
  {
    forall j: nat, u: nat ensures KeepsOtherAt(blocks, ino, blocks', ino', i, j, u) {
      assert KeepsAt(blocks, ino, blocks', ino', j, u);
    }
  }

  lemma {:induction false} OthersTrans(b0: Blocks, i0: Inodes, b1: Blocks, i1: Inodes, b2: Blocks, i2: Inodes, i: nat)
    requires KeepsOthers(b0, i0, b1, i1, i) && KeepsOthers(b1, i1, b2, i2, i)
    ensures KeepsOthers(b0, i0, b2, i2, i)
  {
    forall j: nat, u: nat ensures KeepsOtherAt(b0, i0, b2, i2, i, j, u) {
      assert KeepsOtherAt(b0, i0, b1, i1, i, j, u) && KeepsOtherAt(b1, i1, b2, i2, i, j, u);
    }
  }

  // ----- a write in progress -----

  function Max(a: nat, b: nat): (m: nat) { if a < b then b else a }

  predicate WroteAt(blocks: Blocks, ip: Inode, f: seq<Byte>, off: nat, src: seq<Byte>, tot: nat, o: nat) {
    ShapeOk(ip) && o < Max(|f|, off + tot) && off <= |f| && tot <= |src| && Max(|f|, off + tot) <= MAXFILE * BSIZE ==>
      && SlotOf(blocks, ip, DataSlot(o / BSIZE)) != 0
      && ByteAt(blocks, ip, o) == if off <= o < off + tot then src[o - off] else f[o]
  }

  /** The file that held f now also holds the first tot bytes of src at off. */
  ghost predicate Wrote(blocks: Blocks, ip: Inode, f: seq<Byte>, off: nat, src: seq<Byte>, tot: nat) {
    forall o: nat {:trigger WroteAt(blocks, ip, f, off, src, tot, o)} :: WroteAt(blocks, ip, f, off, src, tot, o)
  }

  /** f with s written at off. */
  function Splice(f: seq<Byte>, off: nat, s: seq<Byte>): (r: seq<Byte>)
    requires off <= |f|
    ensures |r| == Max(|f|, off + |s|)
  {
    f[..off] + s + if off + |s| < |f| then f[off + |s|..] else []
  }

  function Patch(blk: Block, at: nat, s: seq<Byte>): (r: Block)
    requires at + |s| <= BSIZE
  {
    blk[..at] + s + blk[at + |s|..]
  }

  lemma {:induction false} WroteNone(sb: Super, blocks: Blocks, ino: Inodes, owner: Owners, i: nat, off: nat,
      src: seq<Byte>)
    requires FsOk(sb, blocks, ino, owner) && i in ino
    ensures InodeAt(ino, i) && ShapeOk(ino[i]) && ino[i].size <= MAXFILE * BSIZE
    ensures off <= ino[i].size ==> Wrote(blocks, ino[i], File(blocks, ino[i]), off, src, 0)
  {
    assert InodeAt(ino, i);
    var f := File(blocks, ino[i]);
    forall o: nat ensures off <= ino[i].size ==> WroteAt(blocks, ino[i], f, off, src, 0, o) {
      assert WholeAt(blocks, ino, i, o / BSIZE);
    }
  }

  lemma {:induction false} WroteKept(sb: Super, b0: Blocks, i0: Inodes, b1: Blocks, i1: Inodes, i: nat, f: seq<Byte>,
      off: nat, src: seq<Byte>, tot: nat)
    requires i in i0 && i in i1 && ShapeOk(i0[i]) && Wrote(b0, i0[i], f, off, src, tot) && Keeps(b0, i0, b1, i1)
    ensures Wrote(b1, i1[i], f, off, src, tot)
  {
    forall o: nat ensures WroteAt(b1, i1[i], f, off, src, tot, o) {
      assert WroteAt(b0, i0[i], f, off, src, tot, o);
      if o < MAXFILE * BSIZE { assert KeepsAt(b0, i0, b1, i1, i, DataSlot(o / BSIZE)); }
    }
  }

  /** Patching m bytes of src into the block at off + tot. */
  lemma {:induction false} WroteNext(blocks: Blocks, blocks': Blocks, ino: Inodes, i: nat, f: seq<Byte>, off: nat,
      src: seq<Byte>, tot: nat, m: nat, bn: nat, at: nat)
    requires i in ino && ShapeOk(ino[i]) && Wrote(blocks, ino[i], f, off, src, tot) && off <= |f| && tot + m <= |src|
    requires bn < MAXFILE && at + m <= BSIZE && off + tot == bn * BSIZE + at && off + tot + m <= MAXFILE * BSIZE
      && |f| <= MAXFILE * BSIZE
    requires SlotOf(blocks, ino[i], DataSlot(bn)) != 0 && SlotOf(blocks, ino[i], DataSlot(bn)) < |blocks|
    requires blocks' == blocks[SlotOf(blocks, ino[i], DataSlot(bn)) :=
      Patch(blocks[SlotOf(blocks, ino[i], DataSlot(bn))], at, src[tot..tot + m])]
    requires SlotsAllSame(blocks, ino, blocks')
    requires forall j: nat, u: nat {:trigger KeepsAt(blocks, ino, blocks', ino, j, u)} ::
      !(j == i && u == DataSlot(bn)) ==>
          KeepsAt(blocks, ino, blocks', ino, j, u)
    ensures Wrote(blocks', ino[i], f, off, src, tot + m)
  {
    var tot', s := tot + m, DataSlot(bn);
    forall o: nat ensures WroteAt(blocks', ino[i], f, off, src, tot', o) {
      assert WroteAt(blocks, ino[i], f, off, src, tot, o);
      if o < MAXFILE * BSIZE {
        var u := DataSlot(o / BSIZE);
        assert SlotsSameAt(blocks, ino, blocks', i, u);
        if o / BSIZE == bn {
          assert o == bn * BSIZE + o % BSIZE;
        } else {
          assert u != s && KeepsAt(blocks, ino, blocks', ino, i, u);
        }
      }
    }
  }

  /** When the size catches up, the file is the old one with the bytes spliced in. */
  lemma {:induction false} WroteDone(sb: Super, blocks: Blocks, ino: Inodes, owner: Owners, i: nat, f: seq<Byte>,
      off: nat, src: seq<Byte>, tot: nat, ino': Inodes)
    requires FsOk(sb, blocks, ino, owner) && i in ino && ino[i].typ != 0 && ShapeOk(ino[i]) && ino[i].size == |f|
      && off <= |f| && tot <= |src|
    requires Max(|f|, off + tot) <= MAXFILE * BSIZE && Wrote(blocks, ino[i], f, off, src, tot)
    requires ino' == ino[i := ino[i].(size := Max(|f|, off + tot))]
    ensures FsOk(sb, blocks, ino', owner) && File(blocks, ino'[i]) == Splice(f, off, src[..tot])
  {
    forall j: nat, u: nat ensures SlotAt(blocks, ino', owner, j, u) && EmptyAt(blocks, ino', j, u) {
      assert SlotAt(blocks, ino, owner, j, u) && EmptyAt(blocks, ino, j, u);
    }
    forall j: nat ensures InodeAt(ino', j) && NamedAt(blocks, ino', owner, j) {
      assert InodeAt(ino, j) && NamedAt(blocks, ino, owner, j);
    }
    forall j: nat, bn: nat ensures WholeAt(blocks, ino', j, bn) {
      assert WholeAt(blocks, ino, j, bn);
      if j == i { assert WroteAt(blocks, ino[i], f, off, src, tot, bn * BSIZE); }
    }
    var g := Splice(f, off, src[..tot]);
    forall o: nat | o < |g| ensures File(blocks, ino'[i])[o] == g[o] {
      assert WroteAt(blocks, ino[i], f, off, src, tot, o);
    }
  }
}
