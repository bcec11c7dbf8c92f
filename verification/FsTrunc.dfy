/** Truncation step by step: which slots of the inode are clear and which blocks
    are free after part of itrunc's loops. */
module FsTrunc {
  import opened Bytes
  import opened FsFormat
  import opened FsSteps

  /** Slots below k, and entries from the first one up to e, are done. */
  predicate Done(k: nat, e: nat, u: nat) {
    u < k || NDIRECT < u < e
  }

  predicate ClearedAt(b0: Blocks, ip0: Inode, b1: Blocks, ip1: Inode, k: nat, e: nat, u: nat) {
    ShapeOk(ip0) && ShapeOk(ip1) && u < SLOTS ==> SlotOf(b1, ip1, u) == if Done(k, e, u) then 0 else SlotOf(b0, ip0, u)
  }

  predicate ReleasedAt(owner0: Owners, owner1: Owners, i: nat, k: nat, e: nat, b: nat) {
    b < |owner0| && b < |owner1| ==>
      owner1[b] == if owner0[b].Slot? && owner0[b].inum == i && Done(k, e, owner0[b].s) then Unused else owner0[b]
  }

  /** Exactly the blocks that the slots done of inode i named are free now. */
  ghost predicate Released(owner0: Owners, owner1: Owners, i: nat, k: nat, e: nat) {
    |owner1| == |owner0| && forall b: nat {:trigger ReleasedAt(owner0, owner1, i, k, e, b)} ::
      ReleasedAt(owner0, owner1, i, k, e, b)
  }

  ghost predicate Truncating(sb: Super, b0: Blocks, i0: Inodes, owner0: Owners, b1: Blocks, i1: Inodes, owner1: Owners,
      i: nat, k: nat, e: nat)
  {
    && Owned(sb, b1, i1, owner1) && SameBut(i0, i1, i) && ShapeOk(i0[i]) && ShapeOk(i1[i])
    && KeepsOthers(b0, i0, b1, i1, i) && Released(owner0, owner1, i, k, e)
    && (forall u: nat {:trigger ClearedAt(b0, i0[i], b1, i1[i], k, e, u)} :: ClearedAt(b0, i0[i], b1, i1[i], k, e, u))
  }

  lemma {:induction false} TruncBegin(sb: Super, blocks: Blocks, ino: Inodes, owner: Owners, i: nat)
    requires FsOk(sb, blocks, ino, owner) && i in ino
    ensures Truncating(sb, blocks, ino, owner, blocks, ino, owner, i, 0, NDIRECT + 1)
  {
    assert InodeAt(ino, i);
    KeepsRefl(sb, blocks, ino, owner);
    KeepsIsOthers(blocks, ino, blocks, ino, i);
  }

  /** Clearing a slot and freeing the block it named. */
  lemma {:induction false} FreeSlot(sb: Super, b1: Blocks, i1: Inodes, owner1: Owners, i: nat, s: nat, a: nat,
      b2: Blocks, i2: Inodes, owner2: Owners)
    requires Owned(sb, b1, i1, owner1) && CanSet(sb, b1, i1, i, s, 0) && SlotOf(b1, i1[i], s) == a != 0
    requires i2 == i1[i := SlotInode(i1[i], s, 0)] && a < sb.size
      && b2 == MarkBlocks(sb, SlotBlocks(b1, i1[i], s, 0), a, false)
    requires a < |owner1| && owner2 == owner1[a := Unused]
    ensures Used(sb, b1, a) && owner1[a] == Slot(i, s)
    ensures Owned(sb, b2, i2, owner2) && SameBut(i1, i2, i) && ShapeOk(i2[i]) && KeepsOthers(b1, i1, b2, i2, i)
    ensures forall u: nat :: u < SLOTS ==> SlotOf(b2, i2[i], u) == if u == s then 0 else SlotOf(b1, i1[i], u)
  {
    var bm, om := SlotBlocks(b1, i1[i], s, 0), owner1[a := Taken];
    assert SlotAt(b1, i1, owner1, i, s) && BitAt(sb, b1, owner1, a);
    Detach(sb, b1, i1, owner1, i, s, bm, i2, om);
    GiveBlock(sb, bm, i2, om, a, b2, owner2);
    KeepsIsOthers(bm, i2, b2, i2, i);
    OthersTrans(b1, i1, bm, i2, b2, i2, i);
    forall u: nat | u < SLOTS ensures SlotOf(b2, i2[i], u) == if u == s then 0 else SlotOf(b1, i1[i], u) {
      assert SetAt(b1, i1, bm, i2, i, s, 0, i, u) && SlotsSameAt(bm, i2, b2, i, u);
    }
  }

  /** One more slot done, whether or not it named a block. */
  lemma {:induction false} TruncNext(sb: Super, b0: Blocks, i0: Inodes, owner0: Owners, b1: Blocks, i1: Inodes,
      owner1: Owners, b2: Blocks, i2: Inodes, owner2: Owners, i: nat, k: nat, e: nat, k': nat, e': nat, s: nat)
    requires Owned(sb, b0, i0, owner0) && Truncating(sb, b0, i0, owner0, b1, i1, owner1, i, k, e) && s < SLOTS
      && !Done(k, e, s)
    requires forall u: nat :: Done(k', e', u) <==> Done(k, e, u) || u == s
    requires Owned(sb, b2, i2, owner2) && SameBut(i1, i2, i) && ShapeOk(i2[i]) && KeepsOthers(b1, i1, b2, i2, i)
    requires forall u: nat :: u < SLOTS ==> SlotOf(b2, i2[i], u) == if u == s then 0 else SlotOf(b1, i1[i], u)
    requires var a := SlotOf(b1, i1[i], s);
      if a == 0 then owner2 == owner1 else a < |owner1| && owner2 == owner1[a := Unused]
    ensures Truncating(sb, b0, i0, owner0, b2, i2, owner2, i, k', e')
  {
    OthersTrans(b0, i0, b1, i1, b2, i2, i);
    var a := SlotOf(b1, i1[i], s);
    assert ClearedAt(b0, i0[i], b1, i1[i], k, e, s) && SlotAt(b0, i0, owner0, i, s);
    forall u: nat ensures ClearedAt(b0, i0[i], b2, i2[i], k', e', u) {
      assert ClearedAt(b0, i0[i], b1, i1[i], k, e, u);
    }
    forall b: nat ensures ReleasedAt(owner0, owner2, i, k', e', b) {
      assert ReleasedAt(owner0, owner1, i, k, e, b) && NamedAt(b0, i0, owner0, b) && BitAt(sb, b0, owner0, b);
    }
  }

  /** The end: every slot is clear. */
  lemma {:induction false} TruncEnd(sb: Super, b0: Blocks, i0: Inodes, owner0: Owners, b1: Blocks, i1: Inodes,
      owner1: Owners, i: nat, i2: Inodes)
    requires FsOk(sb, b0, i0, owner0) && i in i1
      && Truncating(sb, b0, i0, owner0, b1, i1, owner1, i, NDIRECT + 1, SLOTS)
    requires i2 == i1[i := i1[i].(size := 0)]
    ensures FsOk(sb, b1, i2, owner1) && OthersSame(b0, i0, b1, i2, i)
    ensures forall u: nat :: u < SLOTS ==> SlotOf(b1, i2[i], u) == 0
  {
    forall u: nat | u < SLOTS ensures SlotOf(b1, i2[i], u) == 0 {
      assert ClearedAt(b0, i0[i], b1, i1[i], NDIRECT + 1, SLOTS, u);
    }
    forall j: nat, u: nat ensures SlotAt(b1, i2, owner1, j, u) && EmptyAt(b1, i2, j, u)
      && KeepsOtherAt(b0, i0, b1, i2, i, j, u) {
      assert SlotAt(b1, i1, owner1, j, u) && EmptyAt(b0, i0, j, u) && KeepsOtherAt(b0, i0, b1, i1, i, j, u);
      if j != i && j in i1 && u < SLOTS && ShapeOk(i1[j]) && SlotOf(b1, i1[j], u) != 0 {
        var a := SlotOf(b1, i1[j], u);
        assert ReleasedAt(owner0, owner1, i, NDIRECT + 1, SLOTS, a) && NamedAt(b0, i0, owner0, a);
      }
    }
    forall j: nat ensures InodeAt(i2, j) && NamedAt(b1, i2, owner1, j) {
      assert InodeAt(i1, j) && NamedAt(b1, i1, owner1, j);
    }
    forall j: nat, bn: nat ensures WholeAt(b1, i2, j, bn) {
      assert WholeAt(b0, i0, j, bn) && InodeAt(i0, j);
      if bn < MAXFILE { assert KeepsOtherAt(b0, i0, b1, i1, i, j, DataSlot(bn)); }
    }
    OthersKept(sb, b0, i0, owner0, b1, i2, i);
  }

  /** Blocks as they would be had itrunc cleared the entries it has freed. */
  predicate ViewAt(view: Blocks, blocks: Blocks, ind: nat, x: nat) {
    x < |view| && x < |blocks| && x != ind ==> view[x] == blocks[x]
  }

  ghost predicate View(view: Blocks, blocks: Blocks, ind: nat) {
    |view| == |blocks| && forall x: nat {:trigger ViewAt(view, blocks, ind, x)} :: ViewAt(view, blocks, ind, x)
  }

  lemma {:induction false} ViewMark(sb: Super, view: Blocks, view1: Blocks, blocks: Blocks, ind: nat, a: nat, z: Block)
    requires SuperOk(sb, blocks) && View(view, blocks, ind) && a < sb.size && sb.data <= ind < sb.size
    requires view1 == view[ind := z]
    ensures SuperOk(sb, view1) && View(MarkBlocks(sb, view1, a, false), MarkBlocks(sb, blocks, a, false), ind)
    ensures Used(sb, view, a) == Used(sb, blocks, a) && MarkBlocks(sb, blocks, a, false)[ind] == blocks[ind]
  {
    BitmapBelow(sb, blocks, a);
    assert ViewAt(view, blocks, ind, BitmapBlock(sb, a));
    var v', b' := MarkBlocks(sb, view1, a, false), MarkBlocks(sb, blocks, a, false);
    forall x: nat ensures ViewAt(v', b', ind, x) {
      assert ViewAt(view, blocks, ind, x);
    }
  }

  /** An inode without an indirect block has no entries. */
  lemma {:induction false} TruncNoIndirect(sb: Super, b0: Blocks, i0: Inodes, owner0: Owners, b1: Blocks, i1: Inodes,
      owner1: Owners, i: nat)
    requires Owned(sb, b0, i0, owner0) && Truncating(sb, b0, i0, owner0, b1, i1, owner1, i, NDIRECT, NDIRECT + 1)
      && i1[i].addrs[NDIRECT] == 0
    ensures Truncating(sb, b0, i0, owner0, b1, i1, owner1, i, NDIRECT + 1, SLOTS)
  {
    var k', e := NDIRECT + 1, NDIRECT + 1;
    forall u: nat ensures ClearedAt(b0, i0[i], b1, i1[i], k', SLOTS, u) {
      assert ClearedAt(b0, i0[i], b1, i1[i], NDIRECT, e, u);
    }
    forall b: nat ensures ReleasedAt(owner0, owner1, i, k', SLOTS, b) {
      assert ReleasedAt(owner0, owner1, i, NDIRECT, e, b) && NamedAt(b0, i0, owner0, b) && BitAt(sb, b0, owner0, b);
      if b < |owner0| && owner0[b].Slot? && owner0[b].inum == i {
        assert ClearedAt(b0, i0[i], b1, i1[i], NDIRECT, e, owner0[b].s);
      }
    }
  }

  /** The indirect block is free now, so what it holds does not matter. */
  lemma {:induction false} TruncForget(sb: Super, b0: Blocks, i0: Inodes, owner0: Owners, view: Blocks, blocks: Blocks,
      i1: Inodes, owner1: Owners, i: nat, k: nat, e: nat, ind: nat)
    requires Truncating(sb, b0, i0, owner0, view, i1, owner1, i, k, e) && View(view, blocks, ind) && ind < |owner1|
      && owner1[ind] == Unused && sb.data <= ind
    ensures Truncating(sb, b0, i0, owner0, blocks, i1, owner1, i, k, e)
  {
    forall x: nat ensures OwnedSame(owner1, view, blocks, x) {
      assert ViewAt(view, blocks, ind, x);
    }
    forall x: nat | x < sb.data ensures blocks[x] == view[x] {
      assert ViewAt(view, blocks, ind, x);
    }
    forall b: nat ensures BitAt(sb, blocks, owner1, b) {
      assert BitAt(sb, view, owner1, b);
      BitsSame(sb, view, blocks, owner1, owner1, b);
    }
    LooseBlocks(sb, view, i1, owner1, blocks, owner1);
    KeepsIsOthers(view, i1, blocks, i1, i);
    OthersTrans(b0, i0, view, i1, blocks, i1, i);
    forall u: nat ensures ClearedAt(b0, i0[i], blocks, i1[i], k, e, u) {
      assert ClearedAt(b0, i0[i], view, i1[i], k, e, u) && SlotsSameAt(view, i1, blocks, i, u);
    }
  }

  predicate EntryAt(buf: Block, b0: Blocks, ip0: Inode, j: nat) {
    ShapeOk(ip0) && j < NINDIRECT ==> GetU32(buf, j) == SlotOf(b0, ip0, NDIRECT + 1 + j)
  }

  /** The buffer holds the entries the inode had to begin with. */
  ghost predicate Entries(buf: Block, b0: Blocks, ip0: Inode) {
    forall j: nat {:trigger EntryAt(buf, b0, ip0, j)} :: EntryAt(buf, b0, ip0, j)
  }

  lemma {:induction false} EntriesHeld(sb: Super, b0: Blocks, i0: Inodes, owner0: Owners, b1: Blocks, i1: Inodes,
      owner1: Owners, i: nat)
    requires Truncating(sb, b0, i0, owner0, b1, i1, owner1, i, NDIRECT, NDIRECT + 1) && i1[i].addrs[NDIRECT] != 0
    ensures i1[i].addrs[NDIRECT] < |b1| && sb.data <= i1[i].addrs[NDIRECT]
      && Entries(b1[i1[i].addrs[NDIRECT]], b0, i0[i])
  {
    var ind, e := i1[i].addrs[NDIRECT], NDIRECT + 1;
    assert SlotAt(b1, i1, owner1, i, NDIRECT) && BitAt(sb, b1, owner1, ind);
    forall j: nat ensures EntryAt(b1[ind], b0, i0[i], j) {
      assert ClearedAt(b0, i0[i], b1, i1[i], NDIRECT, e, NDIRECT + 1 + j);
    }
  }

  lemma {:induction false} TruncSkip(sb: Super, b0: Blocks, i0: Inodes, owner0: Owners, b1: Blocks, i1: Inodes,
      owner1: Owners, i: nat, k: nat, e: nat, k': nat, e': nat, s: nat)
    requires Owned(sb, b0, i0, owner0) && Truncating(sb, b0, i0, owner0, b1, i1, owner1, i, k, e) && s < SLOTS
      && !Done(k, e, s)
    requires forall u: nat :: Done(k', e', u) <==> Done(k, e, u) || u == s
    requires SlotOf(b1, i1[i], s) == 0
    ensures Truncating(sb, b0, i0, owner0, b1, i1, owner1, i, k', e')
  {
    KeepsRefl(sb, b1, i1, owner1);
    KeepsIsOthers(b1, i1, b1, i1, i);
    TruncNext(sb, b0, i0, owner0, b1, i1, owner1, b1, i1, owner1, i, k, e, k', e', s);
  }
}
