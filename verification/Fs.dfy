/** kernel/fs.c: block allocation, the block map, truncation, and reading and
    writing files. One object stands for the blocks as the buffer cache shows
    them, inode blocks included, and for the inodes in memory. */
module Fs {
  import opened Bytes
  import opened Bitmap
  import opened FsFormat
  import opened FsSteps
  import opened FsTrunc
  import opened FsDisk

  class Fs {
    const sb: Super
    var blocks: Blocks
    var ino: Inodes
    ghost var owner: Owners
    /** the blocks at begin_op, what log_write was given since, and for which blocks */
    ghost var start: Blocks
    ghost var puts: seq<Put>
    ghost var logged: set<nat>
    /** inodes that have changed in memory since iupdate */
    ghost var dirty: set<nat>

    /** Every change of a block has been given to log_write, and every inode that is
        not dirty is in its block. */
    ghost predicate Synced()
      reads this
    {
      Applied(start, puts) == blocks && Targets(puts) == logged && Stored(sb, blocks, ino, dirty)
    }

    ghost predicate Valid()
      reads this
    {
      FsOk(sb, blocks, ino, owner) && NoTaken(owner) && Synced()
    }

    /** An empty file system as mkfs leaves it: every inode free, every block below
        the data area marked in the free map. */
    constructor (size: nat, inodestart: nat, bmapstart: nat, data: nat, ninodes: nat)
      requires 0 < data <= size < TWO_31 && bmapstart + (size + BPB - 1) / BPB <= data
      requires inodestart + ninodes / IPB + 1 <= bmapstart
      ensures Valid() && dirty == {} && sb == Super(size, inodestart, bmapstart, data)
      ensures forall i: nat :: i in ino <==> 1 <= i < ninodes
      ensures forall i: nat :: i in ino ==> ino[i].typ == 0
    {
      var super := Super(size, inodestart, bmapstart, data);
      var marked := MarkFirst(super, data);
      sb, blocks := super, marked;
      ino := map i: nat | 1 <= i < ninodes :: FreeInode(i);
      owner := seq(size, b => if b < data then Meta else Unused);
      start, puts, logged, dirty := [], [], {}, {};
      new;
      hide Applied, Targets, Stored, FsOk;
      EmptyOk(sb, blocks, ino, owner);
      EmptyStored(sb, blocks, ino, ZERO_BLOCK);
      BeginOp();
    }

    /** begin_op(): from here on log_write is given what one operation changes. */
    ghost method BeginOp()
      modifies `start, `puts, `logged
      ensures start == blocks && puts == [] && logged == {} && Applied(start, puts) == blocks && Targets(puts) == logged
    {
      start, puts, logged := blocks, [], {};
    }

    /** A buffer is changed and given to log_write. */
    method Update(b: nat, data: Block)
      requires Synced() && sb.bmapstart <= b < |blocks|
      modifies `blocks, `puts, `logged
      ensures Synced() && blocks == old(blocks)[b := data] && logged == old(logged) + {b}
    {
      AppliedNext(start, puts, Put(b, data));
      StoredKept(sb, blocks, ino, dirty, b, data);
      blocks, puts, logged := blocks[b := data], puts + [Put(b, data)], logged + {b};
    }

    /** iupdate(): the inode goes into its block; no slot, file or bit changes. */
    method Iupdate(i: nat)
      requires FsOk(sb, blocks, ino, owner) && Synced() && i in ino
      modifies `blocks, `puts, `logged, `dirty
      ensures FsOk(sb, blocks, ino, owner) && Synced() && dirty == old(dirty) - {i}
      ensures logged == old(logged) + {InodeBlock(sb, i)}
      ensures SlotsAllSame(old(blocks), ino, blocks) && Keeps(old(blocks), ino, blocks, ino)
      ensures UsedSame(sb, old(blocks), blocks)
    {
      hide Applied, Targets, GetInode, PutInode, FsOk, SlotsAllSame, Keeps, UsedSame, Stored;
      StoredHere(sb, blocks, ino, dirty, i);
      InodeFits(sb, blocks, ino, owner, i);
      var b := InodeBlock(sb, i);
      var data := PutInode(blocks[b], i % IPB, ino[i]);
      StoredUpdate(sb, blocks, ino, dirty, i);
      AppliedNext(start, puts, Put(b, data));
      MetaWrite(sb, blocks, ino, owner, b, data);
      blocks, puts, logged, dirty := blocks[b := data], puts + [Put(b, data)], logged + {b}, dirty - {i};
    }

    /** Inside balloc's loops: mark the free block b + bi, log_write, bzero it. */
    method MarkAndZero(b: nat, bi: nat)
      requires Owned(sb, blocks, ino, owner) && Synced() && b % BPB == 0 && bi < BPB && b + bi < sb.size
        && !Used(sb, blocks, b + bi)
      modifies `blocks, `owner, `puts, `logged
      ensures Synced() && logged == old(logged) + {BitmapBlock(sb, b + bi), b + bi}
      ensures Owned(sb, blocks, ino, owner) && (FsOk(sb, old(blocks), ino, old(owner)) ==> FsOk(sb, blocks, ino, owner))
        && Keeps(old(blocks), ino, blocks, ino) && SlotsAllSame(old(blocks), ino, blocks)
      ensures old(owner)[b + bi] == Unused && owner == old(owner)[b + bi := Taken] && blocks[b + bi] == ZERO_BLOCK
    {
      SameBitmapBlock(sb, b, bi);
      BitmapBelow(sb, blocks, b + bi);
      var r := b + bi;
      assert BitAt(sb, blocks, owner, r);
      var bp := blocks[BitmapBlock(sb, b)];
      Update(BitmapBlock(sb, b), PutBit(bp, bi, true));
      Update(r, ZERO_BLOCK);
      owner := owner[r := Taken];
      TakeBlock(sb, old(blocks), ino, old(owner), r, blocks, owner, ZERO_BLOCK);
    }

    /** balloc(): a free block, zeroed, or 0 if there is none. */
    method Balloc() returns (r: nat)
      requires Owned(sb, blocks, ino, owner) && Synced()
      modifies `blocks, `owner, `puts, `logged
      ensures Synced() && logged == old(logged) + if r == 0 then {} else {BitmapBlock(sb, r), r}
      ensures Owned(sb, blocks, ino, owner) && (FsOk(sb, old(blocks), ino, old(owner)) ==> FsOk(sb, blocks, ino, owner))
        && Keeps(old(blocks), ino, blocks, ino) && SlotsAllSame(old(blocks), ino, blocks)
      ensures r == 0 ==> blocks == old(blocks) && owner == old(owner) && forall x: nat :: x < sb.size ==>
        Used(sb, blocks, x)
      ensures r != 0 ==>
        r < sb.size && old(owner)[r] == Unused && owner == old(owner)[r := Taken] && blocks[r] == ZERO_BLOCK
    {
      hide Applied, Targets, Stored, FsOk, Keeps;
      KeepsRefl(sb, blocks, ino, owner);
      var b := 0;
      while b < sb.size
        invariant b % BPB == 0 && blocks == old(blocks) && owner == old(owner) && logged == old(logged) && Synced()
        invariant forall x: nat :: x < b && x < sb.size ==> Used(sb, old(blocks), x)
      {
        BitmapBelow(sb, blocks, b);
        var bp := blocks[BitmapBlock(sb, b)];
        var bi := 0;
        while bi < BPB && b + bi < sb.size
          invariant bi <= BPB && blocks == old(blocks) && owner == old(owner) && logged == old(logged) && Synced()
          invariant forall x: nat :: x < b + bi && x < sb.size ==> Used(sb, old(blocks), x)
        {
          SameBitmapBlock(sb, b, bi);
          if !GetBit(bp, bi) {
            assert BitAt(sb, blocks, owner, b + bi);
            MarkAndZero(b, bi);
            return b + bi;
          }
          bi := bi + 1;
        }
        b := b + BPB;
      }
      return 0;
    }

    /** bfree(): false where it panics because the block is free already. */
    method Bfree(b: nat) returns (ok: bool)
      requires SuperOk(sb, blocks) && Synced() && b < sb.size
      modifies `blocks, `puts, `logged
      ensures Synced() && (ok <==> Used(sb, old(blocks), b))
      ensures blocks == if ok then MarkBlocks(sb, old(blocks), b, false) else old(blocks)
    {
      BitmapBelow(sb, blocks, b);
      var bp := blocks[BitmapBlock(sb, b)];
      if !GetBit(bp, b % BPB) {
        return false;
      }
      Update(BitmapBlock(sb, b), PutBit(bp, b % BPB, false));
      return true;
    }

    /** ip->addrs[s] = addr */
    method StoreAddr(i: nat, s: nat, addr: nat)
      requires Synced() && i in ino && ShapeOk(ino[i]) && s <= NDIRECT
      modifies `ino, `dirty
      ensures Synced() && dirty == old(dirty) + {i} && ino == old(ino)[i := SlotInode(old(ino)[i], s, addr)]
    {
      StoredHere(sb, blocks, ino, dirty, i);
      StoredDirty(sb, blocks, ino, dirty, i, SlotInode(ino[i], s, addr));
      ino, dirty := ino[i := ino[i].(addrs := ino[i].addrs[s := addr])], dirty + {i};
    }

    /** The store into a slot: an address in the inode or an entry of the indirect block. */
    method StoreSlot(i: nat, s: nat, addr: nat)
      requires Synced() && i in ino && ShapeOk(ino[i]) && s < SLOTS && addr < TWO_32
      requires s > NDIRECT ==> sb.bmapstart <= ino[i].addrs[NDIRECT] < |blocks|
      modifies `blocks, `ino, `puts, `logged, `dirty
      ensures Synced() && blocks == SlotBlocks(old(blocks), old(ino)[i], s, addr)
        && ino == old(ino)[i := SlotInode(old(ino)[i], s, addr)]
      ensures dirty <= old(dirty) + {i}
        && logged == old(logged) + if s > NDIRECT then {old(ino)[i].addrs[NDIRECT]} else {}
    {
      hide Applied, Targets, Stored;
      if s <= NDIRECT {
        StoreAddr(i, s, addr);
      } else {
        var ind := ino[i].addrs[NDIRECT];
        Update(ind, PutU32(blocks[ind], s - NDIRECT - 1, addr));
      }
    }

    /** balloc() for an empty slot, and the store into that slot. */
    method GrabSlot(i: nat, s: nat) returns (addr: nat)
      requires Valid() && i in ino && ino[i].typ != 0 && ShapeOk(ino[i]) && s < SLOTS && SlotOf(blocks, ino[i], s) == 0
      requires s > NDIRECT ==> ino[i].addrs[NDIRECT] != 0
      modifies `blocks, `ino, `owner, `puts, `logged, `dirty
      ensures Valid() && SameBut(old(ino), ino, i) && Keeps(old(blocks), old(ino), blocks, ino)
        && dirty <= old(dirty) + {i}
      ensures addr == 0 ==> blocks == old(blocks) && ino == old(ino) && owner == old(owner) && Full(sb, blocks)
      ensures addr != 0 ==>
        ShapeOk(ino[i]) && SlotOf(blocks, ino[i], s) == addr < |blocks| && (s != NDIRECT ==> blocks[addr] == ZERO_BLOCK)
      ensures addr != 0 ==> OneSlot(old(blocks), old(ino)[i], blocks, ino[i], s)
      ensures ShapeOk(ino[i])
        && logged <= old(logged) + MapBlocks(sb) + Indirect(ino[i]) + if addr == 0 then {} else {addr}
    {
      FsOwned(sb, blocks, ino, owner);
      hide Applied, Targets, Stored, FsOk, Owned, Keeps, SlotsAllSame, CanSet, Full, OneSlot;
      addr := Balloc();
      if addr == 0 {
        return;
      }
      ghost var b1, ino1, owner1 := blocks, ino, owner;
      GrabReady(sb, old(blocks), blocks, ino, old(owner), owner, i, s, addr);
      StoreSlot(i, s, addr);
      owner := owner[addr := Slot(i, s)];
      GrabDone(sb, old(blocks), old(owner), b1, ino1, owner1, i, s, addr, blocks, ino, owner);
    }

    /** bmap(): the block of the file's block bn, added if it is not there. When
        the disk is full the result is 0 and every file is as it was. */
    method Bmap(i: nat, bn: nat) returns (addr: nat)
      requires Valid() && i in ino && ino[i].typ != 0 && bn < MAXFILE
      modifies `blocks, `ino, `owner, `puts, `logged, `dirty
      ensures Valid() && SameBut(old(ino), ino, i) && Keeps(old(blocks), old(ino), blocks, ino)
        && dirty <= old(dirty) + {i}
      ensures addr == 0 ==> Full(sb, blocks)
      ensures addr != 0 ==> ShapeOk(ino[i]) && SlotOf(blocks, ino[i], DataSlot(bn)) == addr < |blocks|
      ensures ShapeOk(old(ino)[i])
      ensures SlotOf(old(blocks), old(ino)[i], DataSlot(bn)) != 0 ==>
        addr != 0 && blocks == old(blocks) && ino == old(ino) && owner == old(owner) && logged == old(logged)
          && dirty == old(dirty)
      ensures SlotOf(old(blocks), old(ino)[i], DataSlot(bn)) == 0 && addr != 0 ==> blocks[addr] == ZERO_BLOCK
      ensures ShapeOk(ino[i])
        && logged <= old(logged) + MapBlocks(sb) + Indirect(ino[i]) + if addr == 0 then {} else {addr}
    {
      KeepsRefl(sb, blocks, ino, owner);
      assert InodeAt(ino, i) && SlotAt(blocks, ino, owner, i, DataSlot(bn)) && SlotAt(blocks, ino, owner, i, NDIRECT);
      if bn < NDIRECT {
        addr := ino[i].addrs[bn];
        if addr == 0 {
          addr := GrabSlot(i, bn);
        }
        return;
      }
      if ino[i].addrs[NDIRECT] == 0 {
        addr := GrabSlot(i, NDIRECT);
        if addr == 0 {
          return;
        }
        assert OneSlotAt(old(blocks), old(ino)[i], blocks, ino[i], NDIRECT, DataSlot(bn));
      }
      ghost var b1, ino1 := blocks, ino;
      addr := BmapEntry(i, bn);
      KeepsTrans(old(blocks), old(ino), b1, ino1, blocks, ino);
    }

    /** The second half of bmap(): the entry in the indirect block. */
    method BmapEntry(i: nat, bn: nat) returns (addr: nat)
      requires Valid() && i in ino && ino[i].typ != 0 && NDIRECT <= bn < MAXFILE && ShapeOk(ino[i])
        && ino[i].addrs[NDIRECT] != 0
      modifies `blocks, `ino, `owner, `puts, `logged, `dirty
      ensures Valid() && SameBut(old(ino), ino, i) && Keeps(old(blocks), old(ino), blocks, ino)
        && dirty <= old(dirty) + {i}
      ensures addr == 0 ==> Full(sb, blocks)
      ensures ShapeOk(ino[i]) && ino[i].addrs[NDIRECT] == old(ino)[i].addrs[NDIRECT]
      ensures addr != 0 ==> SlotOf(blocks, ino[i], DataSlot(bn)) == addr < |blocks|
      ensures SlotOf(old(blocks), old(ino)[i], DataSlot(bn)) != 0 ==>
        addr != 0 && blocks == old(blocks) && ino == old(ino) && owner == old(owner) && logged == old(logged)
          && dirty == old(dirty)
      ensures SlotOf(old(blocks), old(ino)[i], DataSlot(bn)) == 0 && addr != 0 ==> blocks[addr] == ZERO_BLOCK
      ensures logged <= old(logged) + MapBlocks(sb) + Indirect(ino[i]) + if addr == 0 then {} else {addr}
    {
      KeepsRefl(sb, blocks, ino, owner);
      assert SlotAt(blocks, ino, owner, i, NDIRECT) && SlotAt(blocks, ino, owner, i, DataSlot(bn));
      addr := GetU32(blocks[ino[i].addrs[NDIRECT]], bn - NDIRECT);
      assert addr == SlotOf(blocks, ino[i], DataSlot(bn));
      if addr == 0 {
        addr := GrabSlot(i, DataSlot(bn));
        assert KeepsAt(old(blocks), old(ino), blocks, ino, i, NDIRECT);
      }
    }

    /** The m bytes go into the buffer of block bn, and log_write. */
    method PatchBlock(i: nat, ghost f: seq<Byte>, off: nat, src: seq<Byte>, tot: nat, m: nat, ghost bn: nat, at: nat,
        addr: nat)
      requires Valid() && i in ino && ShapeOk(ino[i]) && off <= |f| <= MAXFILE * BSIZE && tot + m <= |src|
      requires bn < MAXFILE && at + m <= BSIZE && off + tot == bn * BSIZE + at && off + tot + m <= MAXFILE * BSIZE
      requires SlotOf(blocks, ino[i], DataSlot(bn)) == addr != 0 && Wrote(blocks, ino[i], f, off, src, tot)
      modifies `blocks, `puts, `logged
      ensures Valid() && KeepsOthers(old(blocks), ino, blocks, ino, i) && logged == old(logged) + {addr}
      ensures Wrote(blocks, ino[i], f, off, src, tot + m)
    {
      assert SlotAt(blocks, ino, owner, i, DataSlot(bn)) && BitAt(sb, blocks, owner, addr);
      hide FsOk, Wrote, Stored, Applied, Targets, KeepsOthers, SlotsAllSame;
      ghost var b1 := blocks;
      Update(addr, Patch(blocks[addr], at, src[tot..tot + m]));
      WriteData(sb, b1, ino, owner, i, DataSlot(bn), blocks[addr], blocks);
      WroteNext(b1, blocks, ino, i, f, off, src, tot, m, bn, at);
      DataOthers(b1, blocks, ino, i, DataSlot(bn));
    }

    /** One round of writei's loop: bmap, copy m bytes into the buffer, log_write. */
    method WriteChunk(i: nat, ghost f: seq<Byte>, off: nat, src: seq<Byte>, tot: nat, m: nat)
        returns (ok: bool, ghost b: nat)
      requires Valid() && i in ino && ino[i].typ != 0 && ShapeOk(ino[i]) && ino[i].size == |f| <= MAXFILE * BSIZE
        && off <= |f|
      requires m > 0 && tot + m <= |src| && off + tot + m <= MAXFILE * BSIZE && (off + tot) % BSIZE + m <= BSIZE
      requires Wrote(blocks, ino[i], f, off, src, tot)
      modifies `blocks, `ino, `owner, `puts, `logged, `dirty
      ensures Valid() && SameBut(old(ino), ino, i) && KeepsOthers(old(blocks), old(ino), blocks, ino, i)
        && ShapeOk(ino[i]) && dirty <= old(dirty) + {i}
      ensures Wrote(blocks, ino[i], f, off, src, if ok then tot + m else tot)
      ensures !ok ==> Full(sb, blocks) && off + tot >= |f|
      ensures Indirect(old(ino)[i]) <= Indirect(ino[i])
        && LogsOnly(sb, old(logged), logged, ino[i], if ok then {b} else {})
    {
      assert WholeAt(blocks, ino, i, (off + tot) / BSIZE);
      hide FsOk, Wrote, Stored, Applied, Targets, KeepsOthers, Full;
      var bn, at := (off + tot) / BSIZE, (off + tot) % BSIZE;
      var addr := Bmap(i, bn);
      WroteKept(sb, old(blocks), old(ino), blocks, ino, i, f, off, src, tot);
      KeepsIsOthers(old(blocks), old(ino), blocks, ino, i);
      assert KeepsAt(old(blocks), old(ino), blocks, ino, i, NDIRECT);
      if addr == 0 {
        return false, 0;
      }
      ghost var b1 := blocks;
      PatchBlock(i, f, off, src, tot, m, bn, at, addr);
      OthersTrans(old(blocks), old(ino), b1, ino, blocks, ino, i);
      return true, addr;
    }

    /** writei's loop: tot bytes get written, all of them unless the disk is full. */
    method WriteLoop(i: nat, ghost f: seq<Byte>, off: nat, src: seq<Byte>) returns (tot: nat, ghost data: set<nat>)
      requires Valid() && i in ino && ino[i].typ != 0 && ShapeOk(ino[i]) && ino[i].size == |f| <= MAXFILE * BSIZE
        && off <= |f|
      requires off + |src| <= MAXFILE * BSIZE && Wrote(blocks, ino[i], f, off, src, 0)
      modifies `blocks, `ino, `owner, `puts, `logged, `dirty
      ensures Valid() && SameBut(old(ino), ino, i) && KeepsOthers(old(blocks), old(ino), blocks, ino, i)
        && ShapeOk(ino[i]) && dirty <= old(dirty) + {i}
      ensures tot <= |src| && Wrote(blocks, ino[i], f, off, src, tot) && AtEdge(off, tot, |src|)
      ensures tot < |src| ==> Full(sb, blocks) && off + tot >= |f|
      ensures |data| <= Span(off, tot) && LogsOnly(sb, old(logged), logged, ino[i], data)
    {
      LogsNone(sb, logged, ino[i], off, |src|);
      FsOwned(sb, blocks, ino, owner);
      hide FsOk, Keeps, KeepsOthers, Wrote, LogsOnly, AtEdge, Span, Full, Stored, Applied, Targets, NoTaken, Owned;
      data, tot := {}, 0;
      KeepsRefl(sb, blocks, ino, owner);
      KeepsIsOthers(blocks, ino, blocks, ino, i);
      while tot < |src|
        invariant tot <= |src| && Valid() && SameBut(old(ino), ino, i) && ShapeOk(ino[i]) && AtEdge(off, tot, |src|)
          && dirty <= old(dirty) + {i}
        invariant KeepsOthers(old(blocks), old(ino), blocks, ino, i) && Wrote(blocks, ino[i], f, off, src, tot)
        invariant |data| <= Span(off, tot) && LogsOnly(sb, old(logged), logged, ino[i], data)
      {
        ghost var b1, ino1, logged1 := blocks, ino, logged;
        var m := ChunkLen(off + tot, |src| - tot);
        ChunkNext(off, tot, |src|, m);
        var ok;
        ghost var b;
        ok, b := WriteChunk(i, f, off, src, tot, m);
        OthersTrans(old(blocks), old(ino), b1, ino1, blocks, ino, i);
        LogsNext(sb, old(logged), logged1, logged, ino1[i], ino[i], data, if ok then {b} else {});
        if !ok {
          return;
        }
        data, tot := data + {b}, tot + m;
      }
    }

    /** writei(): -1 (None) exactly if the range is not allowed; otherwise the first
        tot bytes are spliced in at off, all of them unless the disk is full, and then
        all that lie within the old size. Of the
        blocks given to log_write, data are those of the file's own data. */
    method Writei(i: nat, off: nat, src: seq<Byte>) returns (r: Option<nat>, ghost data: set<nat>)
      requires Valid() && i in ino && ino[i].typ != 0 && off < TWO_32 && |src| < TWO_32
      modifies `blocks, `ino, `owner, `puts, `logged, `dirty
      ensures Valid() && i in ino && InodeAt(old(ino), i) && InodeAt(ino, i) && ino.Keys == old(ino).Keys
      ensures if r.None? then dirty == old(dirty) else dirty <= old(dirty) - {i}
      ensures r.None? <==> off > old(ino)[i].size || off + |src| > MAXFILE * BSIZE
      ensures r.None? ==> blocks == old(blocks) && ino == old(ino) && owner == old(owner) && logged == old(logged)
      ensures r.Some? ==>
        r.value <= |src|
        && File(blocks, ino[i]) == Splice(File(old(blocks), old(ino)[i]), off, src[..r.value])
      ensures r.Some? && r.value < |src| ==>
        Full(sb, blocks) && off + r.value >= old(ino)[i].size && AtEdge(off, r.value, |src|)
      ensures ino[i].typ == old(ino)[i].typ && ino[i].nlink == old(ino)[i].nlink
        && OthersSame(old(blocks), old(ino), blocks, ino, i)
      ensures |data| <= Span(off, |src|) && LogsOnly(sb, old(logged), logged, ino[i], data + {InodeBlock(sb, i)})
    {
      hide FsOk, OthersSame, Full, Splice, Span, File, Stored, Applied, Targets, Wrote, KeepsOthers;
      data := {};
      WroteNone(sb, blocks, ino, owner, i, off, src);
      OthersRefl(blocks, ino, i);
      if off > ino[i].size || (off + |src|) % TWO_32 < off || off + |src| > MAXFILE * BSIZE {
        return None, data;
      }
      ghost var f := File(blocks, ino[i]);
      var tot;
      tot, data := WriteLoop(i, f, off, src);
      SpanMono(off, tot, |src|);
      SetSize(i, off, tot, f, src, old(blocks), old(ino), old(owner));
      LogsInode(sb, old(logged), logged, ino[i], data, InodeBlock(sb, i));
      ghost var b1 := blocks;
      Iupdate(i);
      FilesSame(sb, b1, ino, owner, blocks, i);
      FullSame(sb, b1, blocks);
      OthersSameStep(old(blocks), old(ino), b1, ino, blocks, ino, i);
      return Some(tot), data;
    }

    /** The end of writei(): if(off > ip->size) ip->size = off. */
    method SetSize(i: nat, off: nat, tot: nat, ghost f: seq<Byte>, ghost src: seq<Byte>, ghost b0: Blocks,
        ghost i0: Inodes, ghost owner0: Owners)
      requires Valid() && FsOk(sb, b0, i0, owner0) && SameBut(i0, ino, i) && ino[i].typ != 0 && ShapeOk(ino[i])
        && ino[i].size == |f|
      requires off <= |f| && tot <= |src| && Max(|f|, off + tot) <= MAXFILE * BSIZE
        && Wrote(blocks, ino[i], f, off, src, tot)
      requires KeepsOthers(b0, i0, blocks, ino, i)
      modifies `ino, `dirty
      ensures Valid() && i in ino && InodeAt(ino, i) && File(blocks, ino[i]) == Splice(f, off, src[..tot])
      ensures ino.Keys == old(ino).Keys && dirty <= old(dirty) + {i}
      ensures OthersSame(b0, i0, blocks, ino, i) && ino[i] == old(ino)[i].(size := ino[i].size)
    {
      if off + tot > ino[i].size {
        StoredHere(sb, blocks, ino, dirty, i);
        StoredDirty(sb, blocks, ino, dirty, i, ino[i].(size := off + tot));
        ino, dirty := ino[i := ino[i].(size := off + tot)], dirty + {i};
      }
      WroteDone(sb, blocks, old(ino), owner, i, f, off, src, tot, ino);
      SizeOthers(b0, i0, blocks, old(ino), ino, i);
      OthersKept(sb, b0, i0, owner0, blocks, ino, i);
      assert InodeAt(ino, i);
    }

    /** One round of readi's loop: bmap and copy m bytes out of the buffer. */
    method ReadBlock(i: nat, o: nat, m: nat) returns (chunk: seq<Byte>)
      requires Valid() && i in ino && ino[i].typ != 0 && InodeAt(ino, i) && 0 < m && o % BSIZE + m <= BSIZE
        && o + m <= ino[i].size
      modifies `blocks, `ino, `owner, `puts, `logged, `dirty
      ensures Valid() && blocks == old(blocks) && ino == old(ino) && owner == old(owner) && dirty == old(dirty)
      ensures chunk == File(blocks, ino[i])[o..o + m]
    {
      assert WholeAt(blocks, ino, i, o / BSIZE);
      var addr := Bmap(i, o / BSIZE);
      ReadChunk(blocks, ino[i], o, m);
      return blocks[addr][o % BSIZE..o % BSIZE + m];
    }

    /** readi(): the bytes of the file from off on, at most n of them; none if off
        is beyond the end or off + n overflows. Nothing changes. */
    method Readi(i: nat, off: nat, n: nat) returns (data: seq<Byte>)
      requires Valid() && i in ino && ino[i].typ != 0 && off < TWO_32 && n < TWO_32
      modifies `blocks, `ino, `owner, `puts, `logged, `dirty
      ensures Valid() && blocks == old(blocks) && ino == old(ino) && owner == old(owner) && dirty == old(dirty)
        && InodeAt(ino, i)
      ensures off > ino[i].size || off + n >= TWO_32 ==> data == []
      ensures off <= ino[i].size && off + n < TWO_32 ==> data == Slice(File(blocks, ino[i]), off, n)
    {
      hide FsOk, File;
      data := [];
      WroteNone(sb, blocks, ino, owner, i, 0, []);
      if off > ino[i].size || (off + n) % TWO_32 < off {
        return;
      }
      var n' := if off + n > ino[i].size then ino[i].size - off else n;
      ghost var f := File(blocks, ino[i]);
      var tot := 0;
      while tot < n'
        invariant tot <= n' && blocks == old(blocks) && ino == old(ino) && owner == old(owner) && dirty == old(dirty)
          && Valid()
        invariant data == f[off..off + tot]
      {
        var at := (off + tot) % BSIZE;
        var m := if n' - tot < BSIZE - at then n' - tot else BSIZE - at;
        var chunk := ReadBlock(i, off + tot, m);
        SliceCat(f, off, off + tot, off + tot + m);
        data, tot := data + chunk, tot + m;
      }
    }

    /** bfree() of a block that addrs[s] names, and addrs[s] = 0. */
    method FreePointer(i: nat, s: nat, ghost b0: Blocks, ghost i0: Inodes, ghost owner0: Owners)
      requires Owned(sb, b0, i0, owner0) && Synced() && s < NDIRECT
      requires Truncating(sb, b0, i0, owner0, blocks, ino, owner, i, s, NDIRECT + 1) && ino[i].addrs[s] != 0
      modifies `blocks, `ino, `owner, `puts, `logged, `dirty
      ensures Synced() && dirty == old(dirty) + {i}
      ensures Truncating(sb, b0, i0, owner0, blocks, ino, owner, i, s + 1, NDIRECT + 1)
    {
      var a := ino[i].addrs[s];
      assert SlotAt(blocks, ino, owner, i, s);
      FreeSlot(sb, blocks, ino, owner, i, s, a, MarkBlocks(sb, blocks, a, false), ino[i := SlotInode(ino[i], s, 0)],
          owner[a := Unused]);
      var ok := Bfree(a);
      assert ok;
      StoreAddr(i, s, 0);
      owner := owner[a := Unused];
      TruncNext(sb, b0, i0, owner0, old(blocks), old(ino), old(owner), blocks, ino, owner, i, s, NDIRECT + 1, s + 1,
          NDIRECT + 1, s);
    }

    /** bfree() of the block that entry j of the indirect block names. The entry
        itself stays; view has it cleared. */
    method FreeEntry(i: nat, j: nat, a: nat, ghost ind: nat, ghost view: Blocks, ghost b0: Blocks, ghost i0: Inodes,
        ghost owner0: Owners) returns (ghost view': Blocks)
      requires SuperOk(sb, blocks) && Owned(sb, b0, i0, owner0) && Synced() && j < NINDIRECT && View(view, blocks, ind)
      requires Truncating(sb, b0, i0, owner0, view, ino, owner, i, NDIRECT, NDIRECT + 1 + j)
        && ino[i].addrs[NDIRECT] == ind != 0
      requires SlotOf(view, ino[i], NDIRECT + 1 + j) == a != 0
      modifies `blocks, `owner, `puts, `logged
      ensures Synced() && SuperOk(sb, blocks) && View(view', blocks, ind)
      ensures ind < |blocks| && ind < |old(blocks)| && blocks[ind] == old(blocks)[ind]
      ensures Truncating(sb, b0, i0, owner0, view', ino, owner, i, NDIRECT, NDIRECT + 2 + j)
    {
      ghost var s := NDIRECT + 1 + j;
      assert SlotAt(view, ino, owner, i, s) && SlotAt(view, ino, owner, i, NDIRECT) && BitAt(sb, view, owner, ind);
      ghost var v1 := SlotBlocks(view, ino[i], s, 0);
      view' := MarkBlocks(sb, v1, a, false);
      ViewMark(sb, view, v1, blocks, ind, a, v1[ind]);
      assert ino[i := SlotInode(ino[i], s, 0)] == ino;
      FreeSlot(sb, view, ino, owner, i, s, a, view', ino, owner[a := Unused]);
      var ok := Bfree(a);
      assert ok;
      owner := owner[a := Unused];
      TruncNext(sb, b0, i0, owner0, view, ino, old(owner), view', ino, owner, i, NDIRECT, s, NDIRECT, s + 1, s);
    }

    /** The second half of itrunc(): the entries, then the indirect block. */
    method FreeIndirect(i: nat, ghost b0: Blocks, ghost i0: Inodes, ghost owner0: Owners)
      requires Owned(sb, b0, i0, owner0) && Synced()
      requires Truncating(sb, b0, i0, owner0, blocks, ino, owner, i, NDIRECT, NDIRECT + 1) && ino[i].addrs[NDIRECT] != 0
      modifies `blocks, `ino, `owner, `puts, `logged, `dirty
      ensures Synced() && dirty == old(dirty) + {i}
      ensures Truncating(sb, b0, i0, owner0, blocks, ino, owner, i, NDIRECT + 1, SLOTS)
    {
      EntriesHeld(sb, b0, i0, owner0, blocks, ino, owner, i);
      var ind := ino[i].addrs[NDIRECT];
      var buf := blocks[ind];
      ghost var view := blocks;
      var j := 0;
      while j < NINDIRECT
        invariant j <= NINDIRECT && ino == old(ino) && dirty == old(dirty) && Synced()
        invariant SuperOk(sb, blocks) && blocks[ind] == buf && View(view, blocks, ind)
        invariant Truncating(sb, b0, i0, owner0, view, ino, owner, i, NDIRECT, NDIRECT + 1 + j)
      {
        assert EntryAt(buf, b0, i0[i], j)
          && ClearedAt(b0, i0[i], view, ino[i], NDIRECT, NDIRECT + 1 + j, NDIRECT + 1 + j);
        var a := GetU32(buf, j);
        if a != 0 {
          view := FreeEntry(i, j, a, ind, view, b0, i0, owner0);
        } else {
          TruncSkip(sb, b0, i0, owner0, view, ino, owner, i, NDIRECT, NDIRECT + 1 + j, NDIRECT, NDIRECT + 2 + j,
              NDIRECT + 1 + j);
        }
        j := j + 1;
      }
      FreeIndirectBlock(i, ind, view, b0, i0, owner0);
    }

    /** bfree() of the indirect block itself, and addrs[NDIRECT] = 0. */
    method FreeIndirectBlock(i: nat, ind: nat, ghost view: Blocks, ghost b0: Blocks, ghost i0: Inodes,
        ghost owner0: Owners)
      requires SuperOk(sb, blocks) && Owned(sb, b0, i0, owner0) && Synced() && View(view, blocks, ind)
      requires Truncating(sb, b0, i0, owner0, view, ino, owner, i, NDIRECT, SLOTS) && ino[i].addrs[NDIRECT] == ind != 0
      modifies `blocks, `ino, `owner, `puts, `logged, `dirty
      ensures Synced() && dirty == old(dirty) + {i}
      ensures Truncating(sb, b0, i0, owner0, blocks, ino, owner, i, NDIRECT + 1, SLOTS)
    {
      assert SlotAt(view, ino, owner, i, NDIRECT) && BitAt(sb, view, owner, ind);
      forall u: nat ensures NoEntry(view, ino[i], u) {
        assert ClearedAt(b0, i0[i], view, ino[i], NDIRECT, SLOTS, u);
      }
      ghost var view', ino1, owner1 := MarkBlocks(sb, view, ind, false), ino, owner;
      assert view[ind := view[ind]] == view;
      ViewMark(sb, view, view, blocks, ind, ind, view[ind]);
      FreeSlot(sb, view, ino, owner, i, NDIRECT, ind, view', ino[i := SlotInode(ino[i], NDIRECT, 0)],
          owner[ind := Unused]);
      var ok := Bfree(ind);
      assert ok;
      StoreAddr(i, NDIRECT, 0);
      owner := owner[ind := Unused];
      TruncNext(sb, b0, i0, owner0, view, ino1, owner1, view', ino, owner, i, NDIRECT, SLOTS, NDIRECT + 1, SLOTS,
          NDIRECT);
      TruncForget(sb, b0, i0, owner0, view', blocks, ino, owner, i, NDIRECT + 1, SLOTS, ind);
    }

    /** ip->size = 0 */
    method SetZero(i: nat)
      requires Synced() && i in ino
      modifies `ino, `dirty
      ensures Synced() && dirty == old(dirty) + {i} && ino == old(ino)[i := old(ino)[i].(size := 0)]
    {
      StoredHere(sb, blocks, ino, dirty, i);
      StoredDirty(sb, blocks, ino, dirty, i, ino[i].(size := 0));
      ino, dirty := ino[i := ino[i].(size := 0)], dirty + {i};
    }

    /** itrunc(): no file but i changes, i is empty, and every block it had is free
        again; bfree never meets a free block. */
    method Itrunc(i: nat)
      requires Valid() && i in ino
      modifies `blocks, `ino, `owner, `puts, `logged, `dirty
      ensures Valid() && i in ino && ino[i].size == 0 && ino[i].typ == old(ino)[i].typ
        && ino[i].nlink == old(ino)[i].nlink
      ensures dirty == old(dirty) - {i} && ino.Keys == old(ino).Keys
      ensures InodeAt(ino, i) && forall u: nat :: u < SLOTS ==> SlotOf(blocks, ino[i], u) == 0
      ensures OthersSame(old(blocks), old(ino), blocks, ino, i) && Released(old(owner), owner, i, NDIRECT + 1, SLOTS)
    {
      TruncBegin(sb, blocks, ino, owner, i);
      var k := 0;
      while k < NDIRECT
        invariant k <= NDIRECT && Synced() && dirty <= old(dirty) + {i} && old(dirty) <= dirty
        invariant Truncating(sb, old(blocks), old(ino), old(owner), blocks, ino, owner, i, k, NDIRECT + 1)
      {
        if ino[i].addrs[k] != 0 {
          FreePointer(i, k, old(blocks), old(ino), old(owner));
        } else {
          TruncSkip(sb, old(blocks), old(ino), old(owner), blocks, ino, owner, i, k, NDIRECT + 1, k + 1, NDIRECT + 1,
              k);
        }
        k := k + 1;
      }
      if ino[i].addrs[NDIRECT] != 0 {
        FreeIndirect(i, old(blocks), old(ino), old(owner));
      } else {
        TruncNoIndirect(sb, old(blocks), old(ino), old(owner), blocks, ino, owner, i);
      }
      ghost var ino1, b1 := ino, blocks;
      TruncEnd(sb, old(blocks), old(ino), old(owner), blocks, ino1, owner, i, ino[i := ino[i].(size := 0)]);
      SetZero(i);
      Iupdate(i);
      FilesSame(sb, b1, ino, owner, blocks, i);
      OthersSameStep(old(blocks), old(ino), b1, ino, blocks, ino, i);
      forall u: nat | u < SLOTS ensures SlotOf(blocks, ino[i], u) == 0 {
        assert SlotsSameAt(b1, ino, blocks, i, u);
      }
      forall b: nat | b < |owner| ensures owner[b] != Taken {
        assert ReleasedAt(old(owner), owner, i, NDIRECT + 1, SLOTS, b);
      }
      assert InodeAt(ino, i);
    }

    /** ialloc(): a free inode gets the type and names no block; 0 if there is none. */
    method Ialloc(typ: nat, ninodes: nat) returns (r: nat)
      requires Valid() && 0 < typ < SHORT && forall i: nat :: 1 <= i < ninodes ==> i in ino
      modifies `blocks, `ino, `puts, `logged, `dirty
      ensures Valid() && OthersSame(old(blocks), old(ino), blocks, ino, r)
      ensures dirty == if r == 0 then old(dirty) else old(dirty) - {r}
      ensures r == 0 ==> blocks == old(blocks) && ino == old(ino)
      ensures r == 0 ==> forall i: nat :: 1 <= i < ninodes ==> ino[i].typ != 0
      ensures r != 0 ==> 1 <= r < ninodes && old(ino)[r].typ == 0
      ensures r != 0 ==> ino == old(ino)[r := Inode(typ, 0, 0, seq(NDIRECT + 1, _ => 0))]
    {
      var inum := 1;
      while inum < ninodes
        invariant 1 <= inum && ino == old(ino) && blocks == old(blocks) && dirty == old(dirty) && Valid()
        invariant forall i: nat :: 1 <= i < inum && i < ninodes ==> ino[i].typ != 0
      {
        if ino[inum].typ == 0 {
          assert InodeAt(ino, inum);
          forall u: nat | u < SLOTS ensures SlotOf(blocks, ino[inum], u) == 0 {
            assert EmptyAt(blocks, ino, inum, u);
          }
          var ip := Inode(typ, 0, 0, seq(NDIRECT + 1, _ => 0));
          FreshInode(sb, blocks, ino, owner, inum, ip, ino[inum := ip]);
          StoreInode(inum, ip);
          return inum;
        }
        inum := inum + 1;
      }
      OthersRefl(blocks, ino, 0);
      return 0;
    }

    /** The fields of an inode change in memory, then on disk. */
    method StoreInode(i: nat, ip: Inode)
      requires FsOk(sb, blocks, ino[i := ip], owner) && NoTaken(owner) && Synced() && i in ino
      requires ip.typ < SHORT && ip.nlink < SHORT && OthersSame(blocks, ino, blocks, ino[i := ip], i)
      modifies `blocks, `ino, `puts, `logged, `dirty
      ensures Valid() && ino == old(ino)[i := ip] && dirty == old(dirty) - {i}
      ensures OthersSame(old(blocks), old(ino), blocks, ino, i)
        && UsedSame(sb, old(blocks), blocks)
    {
      StoredDirty(sb, blocks, ino, dirty, i, ip);
      ghost var b1, ino1 := blocks, ino;
      ino, dirty := ino[i := ip], dirty + {i};
      Iupdate(i);
      FilesSame(sb, b1, ino, owner, blocks, i);
      OthersSameStep(b1, ino1, b1, ino, blocks, ino, i);
    }

    /** iput() dropping the last reference to an inode without links: truncate it
        and free it. */
    method IputLast(i: nat)
      requires Valid() && i in ino && ino[i].nlink == 0
      modifies `blocks, `ino, `owner, `puts, `logged, `dirty
      ensures Valid() && i in ino && ino[i].typ == 0 && ino[i].size == 0
      ensures dirty == old(dirty) - {i} && ino.Keys == old(ino).Keys
      ensures OthersSame(old(blocks), old(ino), blocks, ino, i) && Released(old(owner), owner, i, NDIRECT + 1, SLOTS)
    {
      Itrunc(i);
      ghost var b1, ino1 := blocks, ino;
      ZeroAddrs(blocks, ino[i]);
      FreshInode(sb, blocks, ino, owner, i, ino[i].(typ := 0), ino[i := ino[i].(typ := 0)]);
      StoreInode(i, ino[i].(typ := 0));
      OthersSameStep(old(blocks), old(ino), b1, ino1, blocks, ino, i);
    }
  }

  lemma {:induction false} ZeroAddrs(blocks: Blocks, ip: Inode)
    requires ShapeOk(ip) && forall u: nat :: u < SLOTS ==> SlotOf(blocks, ip, u) == 0
    ensures ip.addrs == seq(NDIRECT + 1, _ => 0)
  {
    forall u: nat | u <= NDIRECT ensures ip.addrs[u] == 0 {
      assert SlotOf(blocks, ip, u) == 0;
    }
  }

  lemma {:induction false} DataOthers(b1: Blocks, b2: Blocks, ino: Inodes, i: nat, s: nat)
    requires forall j: nat, u: nat {:trigger KeepsAt(b1, ino, b2, ino, j, u)} :: !(j == i && u == s) ==>
      KeepsAt(b1, ino, b2, ino, j, u)
    ensures KeepsOthers(b1, ino, b2, ino, i)
  {
    forall j: nat, u: nat ensures KeepsOtherAt(b1, ino, b2, ino, i, j, u) {
      assert j != i ==> KeepsAt(b1, ino, b2, ino, j, u);
    }
  }

  lemma {:induction false} SizeOthers(b0: Blocks, i0: Inodes, b1: Blocks, i1: Inodes, i2: Inodes, i: nat)
    requires KeepsOthers(b0, i0, b1, i1, i) && i in i1 && i in i2 && i2 == i1[i := i2[i]]
    ensures KeepsOthers(b0, i0, b1, i2, i)
  {
    forall j: nat, u: nat ensures KeepsOtherAt(b0, i0, b1, i2, i, j, u) {
      assert KeepsOtherAt(b0, i0, b1, i1, i, j, u);
    }
  }

  predicate UsedAt(sb: Super, b0: Blocks, b1: Blocks, x: nat) {
    x < sb.size ==> Used(sb, b1, x) == Used(sb, b0, x)
  }

  /** The free map is the same. */
  ghost predicate UsedSame(sb: Super, b0: Blocks, b1: Blocks) {
    forall x: nat {:trigger UsedAt(sb, b0, b1, x)} :: UsedAt(sb, b0, b1, x)
  }

  lemma {:induction false} FullSame(sb: Super, b0: Blocks, b1: Blocks)
    requires UsedSame(sb, b0, b1)
    ensures Full(sb, b0) ==> Full(sb, b1)
  {
    forall x: nat | Full(sb, b0) && x < sb.size ensures Used(sb, b1, x) {
      assert UsedAt(sb, b0, b1, x);
    }
  }

  /** A block below the free map changes. */
  lemma {:induction false} MetaWrite(sb: Super, blocks: Blocks, ino: Inodes, owner: Owners, b: nat, data: Block)
    requires FsOk(sb, blocks, ino, owner) && b < sb.bmapstart && b < |blocks|
    ensures var blocks' := blocks[b := data];
      && FsOk(sb, blocks', ino, owner) && SlotsAllSame(blocks, ino, blocks') && Keeps(blocks, ino, blocks', ino)
      && UsedSame(sb, blocks, blocks')
  {
    var blocks' := blocks[b := data];
    assert BitAt(sb, blocks, owner, b);
    forall x: nat ensures OwnedSame(owner, blocks, blocks', x) {
    }
    forall x: nat ensures BitAt(sb, blocks', owner, x) && UsedAt(sb, blocks, blocks', x) {
      assert BitAt(sb, blocks, owner, x);
    }
    LooseBlocks(sb, blocks, ino, owner, blocks', owner);
  }

  /** The fields of an inode fit their types on disk. */
  lemma {:induction false} InodeFits(sb: Super, blocks: Blocks, ino: Inodes, owner: Owners, i: nat)
    requires FsOk(sb, blocks, ino, owner) && i in ino && ino[i].typ < SHORT && ino[i].nlink < SHORT
    ensures Fits(ino[i])
  {
    assert InodeAt(ino, i);
    forall j | 0 <= j <= NDIRECT ensures ino[i].addrs[j] < TWO_32 {
      assert SlotAt(blocks, ino, owner, i, j);
    }
  }

  /** Where slots and data are kept, files are. */
  lemma {:induction false} FilesSame(sb: Super, b0: Blocks, ino: Inodes, owner: Owners, b1: Blocks, i: nat)
    requires FsOk(sb, b0, ino, owner) && Keeps(b0, ino, b1, ino) && i in ino
    ensures InodeAt(ino, i) && File(b1, ino[i]) == File(b0, ino[i]) && OthersSame(b0, ino, b1, ino, i)
  {
    assert InodeAt(ino, i);
    FileKept(sb, b0, ino, owner, b1, ino, i);
    KeepsIsOthers(b0, ino, b1, ino, i);
    assert ino[i := ino[i]] == ino;
    OthersKept(sb, b0, ino, owner, b1, ino, i);
  }

  lemma {:induction false} ZeroInode(z: Block, k: nat)
    requires z == ZERO_BLOCK && k < IPB
    ensures GetInode(z, k) == FreeInode(k)
  {
    forall w: nat | 4 * w + 4 <= BSIZE ensures Word(z, w) == 0 {
    }
    hide Word;
    assert GetInode(z, k).addrs == FreeInode(k).addrs;
  }

  /** Zeroed inode blocks hold free inodes. */
  lemma {:induction false} EmptyStored(sb: Super, blocks: Blocks, ino: Inodes, z: Block)
    requires z == ZERO_BLOCK && sb.bmapstart <= |blocks|
    requires forall x :: 0 <= x < sb.bmapstart ==> blocks[x] == z
    requires forall i: nat :: i in ino ==> InodeBlock(sb, i) < sb.bmapstart && ino[i] == FreeInode(i)
    ensures Stored(sb, blocks, ino, {})
  {
    hide GetInode;
    forall i: nat ensures StoredAt(sb, blocks, ino, {}, i) {
      ZeroInode(z, i % IPB);
    }
  }

  function FreeInode(i: nat): (ip: Inode) { Inode(0, 0, 0, seq(NDIRECT + 1, _ => 0)) }

  predicate MarkedAt(sb: Super, blocks: Blocks, n: nat, x: nat) {
    x < sb.size ==> (Used(sb, blocks, x) <==> x < n)
  }

  /** mkfs's balloc(): zeroed blocks, with the first n of them marked in the free map. */
  method MarkFirst(sb: Super, n: nat) returns (blocks: Blocks)
    requires n <= sb.data && 0 < sb.data <= sb.size < TWO_31 && sb.bmapstart + (sb.size + BPB - 1) / BPB <= sb.data
    ensures SuperOk(sb, blocks) && forall x :: 0 <= x < sb.bmapstart ==> blocks[x] == ZERO_BLOCK
    ensures forall x: nat {:trigger MarkedAt(sb, blocks, n, x)} :: MarkedAt(sb, blocks, n, x)
  {
    blocks := seq(sb.size, _ => ZERO_BLOCK);
    var b := 0;
    forall x: nat ensures MarkedAt(sb, blocks, 0, x) {
      if x < sb.size { BitmapBelow(sb, blocks, x); ZeroBit(x % BPB % 8); }
    }
    while b < n
      invariant b <= n && SuperOk(sb, blocks) && forall x :: 0 <= x < sb.bmapstart ==> blocks[x] == ZERO_BLOCK
      invariant forall x: nat {:trigger MarkedAt(sb, blocks, b, x)} :: MarkedAt(sb, blocks, b, x)
    {
      ghost var b0, b1 := blocks, b + 1;
      blocks := MarkBlocks(sb, blocks, b, true);
      forall x: nat ensures MarkedAt(sb, blocks, b1, x) {
        assert MarkedAt(sb, b0, b, x);
        if x < sb.size { MarkUsed(sb, b0, b, true, x); }
      }
      b := b + 1;
    }
  }

  lemma {:induction false} ZeroBit(k: nat)
    ensures !Bit(0, k)
  {
    if k > 0 { ZeroBit(k - 1); }
  }

  lemma {:induction false} EmptyOk(sb: Super, blocks: Blocks, ino: Inodes, owner: Owners)
    requires SuperOk(sb, blocks) && owner == seq(sb.size, b => if b < sb.data then Meta else Unused)
    requires forall x: nat {:trigger MarkedAt(sb, blocks, sb.data, x)} :: MarkedAt(sb, blocks, sb.data, x)
    requires forall i: nat :: i in ino ==> ino[i] == FreeInode(i)
    ensures FsOk(sb, blocks, ino, owner)
  {
    forall b: nat ensures BitAt(sb, blocks, owner, b) {
      assert MarkedAt(sb, blocks, sb.data, b);
    }
  }

  /** No free block is left. */
  ghost predicate Full(sb: Super, blocks: Blocks) {
    forall x: nat :: x < sb.size ==> Used(sb, blocks, x)
  }

  predicate OneSlotAt(b0: Blocks, ip0: Inode, b1: Blocks, ip1: Inode, s: nat, u: nat) {
    u < SLOTS && u != s && ShapeOk(ip0) && ShapeOk(ip1) ==> SlotOf(b1, ip1, u) == SlotOf(b0, ip0, u)
  }

  /** All slots of the inode but s are as before. */
  ghost predicate OneSlot(b0: Blocks, ip0: Inode, b1: Blocks, ip1: Inode, s: nat) {
    forall u: nat {:trigger OneSlotAt(b0, ip0, b1, ip1, s, u)} :: OneSlotAt(b0, ip0, b1, ip1, s, u)
  }

  /** The block just taken may be stored in the slot. */
  lemma {:induction false} GrabReady(sb: Super, b0: Blocks, b1: Blocks, ino: Inodes, owner0: Owners, owner1: Owners,
      i: nat, s: nat, v: nat)
    requires Owned(sb, b0, ino, owner0) && Owned(sb, b1, ino, owner1) && SlotsAllSame(b0, ino, b1) && i in ino
      && ShapeOk(ino[i]) && s < SLOTS
    requires SlotOf(b0, ino[i], s) == 0 && (s > NDIRECT ==> ino[i].addrs[NDIRECT] != 0)
    requires v < sb.size && v < |owner1| && owner1[v] == Taken && b1[v] == ZERO_BLOCK
    ensures CanSet(sb, b1, ino, i, s, v) && SlotOf(b1, ino[i], s) == 0 && v < |b1|
    ensures s > NDIRECT ==> sb.bmapstart <= ino[i].addrs[NDIRECT] < |b1| && ino[i].addrs[NDIRECT] != v
  {
    assert SlotsSameAt(b0, ino, b1, i, s) && SlotAt(b1, ino, owner1, i, NDIRECT);
    assert BitAt(sb, b1, owner1, ino[i].addrs[NDIRECT]);
    forall u: nat ensures s == NDIRECT ==> NoEntry(b1, ino[i], u) {
      assert SlotsSameAt(b0, ino, b1, i, u);
    }
  }

  /** The block just taken is in its slot. */
  lemma {:induction false} GrabDone(sb: Super, b0: Blocks, owner0: Owners, b1: Blocks, ino1: Inodes, owner1: Owners,
      i: nat, s: nat, v: nat, b2: Blocks, ino2: Inodes, owner2: Owners)
    requires FsOk(sb, b1, ino1, owner1) && NoTaken(owner0) && Keeps(b0, ino1, b1, ino1) && SlotsAllSame(b0, ino1, b1)
    requires CanSet(sb, b1, ino1, i, s, v) && v != 0 && SlotOf(b1, ino1[i], s) == 0 && ino1[i].typ != 0
    requires v < |owner0| && owner1 == owner0[v := Taken] && owner2 == owner1[v := Slot(i, s)]
    requires b2 == SlotBlocks(b1, ino1[i], s, v) && ino2 == ino1[i := SlotInode(ino1[i], s, v)]
    ensures FsOk(sb, b2, ino2, owner2) && NoTaken(owner2) && SameBut(ino1, ino2, i) && Keeps(b0, ino1, b2, ino2)
    ensures ShapeOk(ino2[i]) && SlotOf(b2, ino2[i], s) == v && OneSlot(b0, ino1[i], b2, ino2[i], s)
    ensures BitmapBlock(sb, v) in MapBlocks(sb) && (s > NDIRECT ==> Indirect(ino2[i]) == {ino1[i].addrs[NDIRECT]})
  {
    FsOwned(sb, b1, ino1, owner1);
    InMap(sb, b1, v);
    hide FsOk, Owned, Keeps, SlotsAllSame, OneSlot, CanSet;
    Attach(sb, b1, ino1, owner1, i, s, v, b2, ino2, owner2);
    AttachOk(sb, b1, ino1, owner1, i, s, v, b2, ino2, owner2);
    KeepsTrans(b0, ino1, b1, ino1, b2, ino2);
    Grabbed(b0, b1, b2, ino1, ino2, i, s, v);
  }

  lemma {:induction false} Grabbed(b0: Blocks, b1: Blocks, b2: Blocks, ino1: Inodes, ino2: Inodes, i: nat, s: nat,
      v: nat)
    requires i in ino1 && ShapeOk(ino1[i]) && SlotsAllSame(b0, ino1, b1) && i in ino2
    requires forall j: nat, u: nat {:trigger SetAt(b1, ino1, b2, ino2, i, s, v, j, u)} ::
      SetAt(b1, ino1, b2, ino2, i, s, v, j, u)
    ensures OneSlot(b0, ino1[i], b2, ino2[i], s)
  {
    forall u: nat ensures OneSlotAt(b0, ino1[i], b2, ino2[i], s, u) {
      assert SlotsSameAt(b0, ino1, b1, i, u) && SetAt(b1, ino1, b2, ino2, i, s, v, i, u);
    }
  }

  /** At most n bytes of f from off on. */
  function Slice(f: seq<Byte>, off: nat, n: nat): (r: seq<Byte>)
    requires off <= |f|
  {
    if off + n > |f| then f[off..] else f[off..off + n]
  }

  lemma {:induction false} SliceSplice(f: seq<Byte>, off: nat, s: seq<Byte>, o: nat, n: nat)
    requires off <= |f|
    ensures var g := Splice(f, off, s);
      && |g| == (if off + |s| > |f| then off + |s| else |f|) && Slice(g, off, |s|) == s
      && (o + n <= off ==> Slice(g, o, n) == Slice(f, o, n))
      && (off + |s| <= o <= |f| ==> Slice(g, o, n) == Slice(f, o, n))
  {
    var g := Splice(f, off, s);
    assert g[off..off + |s|] == s;
    if o + n <= off {
      assert g[o..o + n] == f[o..o + n];
    }
    if off + |s| <= o <= |f| {
      assert g[o..] == f[o..];
      assert o + n <= |f| ==> g[o..o + n] == f[o..o + n];
    }
  }

  /** readi after writei: the bytes that were written, where they were written, and
      the old ones elsewhere. */
  method ReadsBack(fs: Fs, i: nat, off: nat, src: seq<Byte>, o: nat, n: nat)
    returns (r: Option<nat>, back: seq<Byte>, other: seq<Byte>)
    requires fs.Valid() && i in fs.ino && fs.ino[i].typ != 0 && InodeAt(fs.ino, i)
    requires off < TWO_32 && |src| < TWO_32 && o + n < TWO_32
    modifies fs
    ensures r.Some? <==> off <= old(fs.ino)[i].size && off + |src| <= MAXFILE * BSIZE
    ensures r.Some? ==> r.value <= |src| && back == src[..r.value]
    ensures r.Some? && (o + n <= off || off + r.value <= o <= old(fs.ino)[i].size) ==>
      other == Slice(File(old(fs.blocks), old(fs.ino)[i]), o, n)
  {
    back, other := [], [];
    ghost var data, f := {}, File(fs.blocks, fs.ino[i]);
    r, data := fs.Writei(i, off, src);
    if r.Some? {
      SliceSplice(f, off, src[..r.value], o, n);
      hide FsOk, File, Splice;
      back := fs.Readi(i, off, r.value);
      other := fs.Readi(i, o, n);
    }
  }

  /** Only blocks of the free map, the indirect block and these were logged. */
  predicate LogsOnly(sb: Super, was: set<nat>, now: set<nat>, ip: Inode, data: set<nat>) {
    ShapeOk(ip) && now <= was + MapBlocks(sb) + Indirect(ip) + data
  }

  lemma {:induction false} LogsNone(sb: Super, l: set<nat>, ip: Inode, off: nat, n: nat)
    requires ShapeOk(ip)
    ensures LogsOnly(sb, l, l, ip, {}) && Span(off, 0) == 0 && AtEdge(off, 0, n)
  {
  }

  lemma {:induction false} FsOwned(sb: Super, blocks: Blocks, ino: Inodes, owner: Owners)
    requires FsOk(sb, blocks, ino, owner)
    ensures Owned(sb, blocks, ino, owner)
  {
  }

  lemma {:induction false} LogsNext(sb: Super, l0: set<nat>, l1: set<nat>, l2: set<nat>, ip1: Inode, ip2: Inode,
      data: set<nat>, more: set<nat>)
    requires LogsOnly(sb, l0, l1, ip1, data) && LogsOnly(sb, l1, l2, ip2, more) && Indirect(ip1) <= Indirect(ip2)
    ensures LogsOnly(sb, l0, l2, ip2, data + more)
  {
  }

  lemma {:induction false} LogsInode(sb: Super, l0: set<nat>, l1: set<nat>, ip: Inode, data: set<nat>, b: nat)
    requires ShapeOk(ip) && l1 <= l0 + MapBlocks(sb) + Indirect(ip) + data
    ensures LogsOnly(sb, l0, l1 + {b}, ip, data + {b})
  {
  }

  /** min(n - tot, BSIZE - off % BSIZE) */
  function ChunkLen(o: nat, left: nat): (m: nat) {
    if left < BSIZE - o % BSIZE then left else BSIZE - o % BSIZE
  }

  /** A write stops at its end or at the edge of a block. */
  predicate AtEdge(off: nat, tot: nat, n: nat) {
    tot == 0 || tot == n || (off + tot) % BSIZE == 0
  }

  lemma {:induction false} ChunkNext(off: nat, tot: nat, n: nat, m: nat)
    requires tot < n && AtEdge(off, tot, n) && m == ChunkLen(off + tot, n - tot)
    ensures 0 < m && tot + m <= n && (off + tot) % BSIZE + m <= BSIZE && AtEdge(off, tot + m, n)
    ensures Span(off, tot + m) == Span(off, tot) + 1
  {
    assert m == BSIZE - (off + tot) % BSIZE ==> (off + tot + m) % BSIZE == 0;
    assert (off + tot + m - 1) / BSIZE == (off + tot) / BSIZE;
    if tot > 0 { assert (off + tot - 1) / BSIZE == (off + tot) / BSIZE - 1; }
  }

  lemma {:induction false} SpanMono(off: nat, a: nat, b: nat)
    requires a <= b
    ensures Span(off, a) <= Span(off, b)
  {
  }

  lemma {:induction false} SliceCat(f: seq<Byte>, a: nat, b: nat, c: nat)
    requires a <= b <= c <= |f|
    ensures f[a..b] + f[b..c] == f[a..c]
  {
  }

  /** An inode that names no block gets new fields and still names none. */
  lemma {:induction false} FreshInode(sb: Super, blocks: Blocks, ino: Inodes, owner: Owners, i: nat, ip: Inode,
      ino': Inodes)
    requires FsOk(sb, blocks, ino, owner) && i in ino && InodeAt(ino, i) && forall u: nat :: u < SLOTS ==>
      SlotOf(blocks, ino[i], u) == 0
    requires ip.addrs == seq(NDIRECT + 1, _ => 0) && ip.size == 0 && ino' == ino[i := ip]
    ensures FsOk(sb, blocks, ino', owner) && OthersSame(blocks, ino, blocks, ino', i)
  {
    forall j: nat, u: nat ensures SlotAt(blocks, ino', owner, j, u) && EmptyAt(blocks, ino', j, u)
      && KeepsOtherAt(blocks, ino, blocks, ino', i, j, u) {
      assert SlotAt(blocks, ino, owner, j, u) && EmptyAt(blocks, ino, j, u);
    }
    forall j: nat ensures InodeAt(ino', j) && NamedAt(blocks, ino', owner, j) {
      assert InodeAt(ino, j) && NamedAt(blocks, ino, owner, j) && BitAt(sb, blocks, owner, j);
    }
    forall j: nat, bn: nat ensures WholeAt(blocks, ino', j, bn) {
      assert WholeAt(blocks, ino, j, bn);
    }
    OthersKept(sb, blocks, ino, owner, blocks, ino', i);
  }

  lemma {:induction false} OthersRefl(blocks: Blocks, ino: Inodes, i: nat)
    ensures OthersSame(blocks, ino, blocks, ino, i)
  {
  }

  lemma {:induction false} OthersSameStep(b0: Blocks, i0: Inodes, b1: Blocks, i1: Inodes, b2: Blocks, i2: Inodes,
      i: nat)
    requires OthersSame(b0, i0, b1, i1, i) && OthersSame(b1, i1, b2, i2, i)
    ensures OthersSame(b0, i0, b2, i2, i)
  {
    forall j: nat ensures OtherAt(b0, i0, b2, i2, i, j) {
      assert OtherAt(b0, i0, b1, i1, i, j) && OtherAt(b1, i1, b2, i2, i, j);
    }
  }

  lemma {:induction false} ReadChunk(blocks: Blocks, ip: Inode, o: nat, m: nat)
    requires ShapeOk(ip) && ip.size <= MAXFILE * BSIZE && o % BSIZE + m <= BSIZE && 0 < m && o + m <= ip.size
    requires SlotOf(blocks, ip, DataSlot(o / BSIZE)) < |blocks|
    ensures File(blocks, ip)[o..o + m] == blocks[SlotOf(blocks, ip, DataSlot(o / BSIZE))][o % BSIZE..o % BSIZE + m]
  {
    var a := SlotOf(blocks, ip, DataSlot(o / BSIZE));
    var read, want := File(blocks, ip)[o..o + m], blocks[a][o % BSIZE..o % BSIZE + m];
    forall k: nat | k < m ensures read[k] == want[k] {
      assert (o + k) / BSIZE == o / BSIZE && (o + k) % BSIZE == o % BSIZE + k;
    }
  }

  lemma {:induction false} InMap(sb: Super, blocks: Blocks, b: nat)
    requires SuperOk(sb, blocks) && b < sb.size
    ensures BitmapBlock(sb, b) in MapBlocks(sb)
  {
  }

  lemma {:induction false} SameBitmapBlock(sb: Super, b: nat, bi: nat)
    requires b % BPB == 0 && bi < BPB
    ensures BitmapBlock(sb, b + bi) == BitmapBlock(sb, b) && (b + bi) % BPB == bi
  {
  }
}
