/** Each step of the log machine keeps the invariant. */
module LogSteps {
  import opened Bytes
  import opened LogFormat
  import opened LogMachine
  import opened LogInvariant
  import Log

  // ----- buffer cache -----

  /** Thread t changes its use of buffer i, and the reference count follows. */
  lemma {:induction false} RefsOne(bufs: seq<Buf>, threads: seq<Thread>, pinned: seq<U32>, i: nat, buf: Buf, t: nat,
      th: Thread)
    requires RefsOk(bufs, threads, pinned) && i < |bufs| && t < |threads|
    requires forall k: nat :: k != i ==> Count(th, k) == Count(threads[t], k)
    requires buf.refcnt - Pins(buf, pinned) - Count(th, i)
      == bufs[i].refcnt - Pins(bufs[i], pinned) - Count(threads[t], i)
    requires buf.dev == ROOTDEV
    ensures RefsOk(bufs[i := buf], threads[t := th], pinned)
  {
    assert AssignedOnly(bufs, threads[t]);
    RefsStep(bufs, threads, pinned, bufs[i := buf], t, th, pinned);
  }

  lemma {:induction false} BgetHitCache(g: Geometry, bufs: seq<Buf>, threads: seq<Thread>, pinned: seq<U32>,
      disk: Disk, cur: Disk, t: nat, i: nat)
    requires CacheInv(g, bufs, threads, pinned, disk, cur)
    requires t < |threads| && threads[t].waiting.None? && i < |bufs| && bufs[i].dev == ROOTDEV
    ensures CacheInv(g, bufs[i := bufs[i].(refcnt := bufs[i].refcnt + 1)],
        threads[t := threads[t].(waiting := Some(i))], pinned, disk, cur)
  {
    hide RefsOk;
    var buf, th := bufs[i].(refcnt := bufs[i].refcnt + 1), threads[t].(waiting := Some(i));
    RefsOne(bufs, threads, pinned, i, buf, t, th);
    PinnedKept(bufs, bufs[i := buf], i, pinned);
  }

  /** Changing a buffer that is not pinned, or only its count, lock or dirty
      flag, leaves every pinned block cached. */
  lemma {:induction false} PinnedKept(bufs: seq<Buf>, bufs': seq<Buf>, i: nat, pinned: seq<U32>)
    requires PinnedCached(bufs, pinned) && i < |bufs| == |bufs'|
    requires forall j :: 0 <= j < |bufs| && j != i ==> bufs'[j] == bufs[j]
    requires Pins(bufs[i], pinned) == 0
      || (bufs'[i].dev == bufs[i].dev && bufs'[i].blockno == bufs[i].blockno && (bufs[i].valid ==> bufs'[i].valid))
    ensures PinnedCached(bufs', pinned)
  {
    forall b | b in pinned ensures exists k: nat :: Caches(bufs', k, b) && bufs'[k].valid {
      var k: nat :| Caches(bufs, k, b) && bufs[k].valid;
      assert Caches(bufs', k, b);
    }
  }

  lemma {:induction false} BgetMissCache(g: Geometry, bufs: seq<Buf>, threads: seq<Thread>, pinned: seq<U32>,
      disk: Disk, cur: Disk,
                                         t: nat, i: nat, b: nat)
    requires CacheInv(g, bufs, threads, pinned, disk, cur)
    requires t < |threads| && threads[t].waiting.None? && i < |bufs| && bufs[i].refcnt == 0 && b < g.blocks
    requires forall j: nat :: !Caches(bufs, j, b)
    ensures CacheInv(g, bufs[i := bufs[i].(dev := ROOTDEV, blockno := b, valid := false, refcnt := 1)],
                     threads[t := threads[t].(waiting := Some(i))], pinned, disk, cur)
  {
    var buf, th := bufs[i].(dev := ROOTDEV, blockno := b, valid := false, refcnt := 1), threads[t].(waiting := Some(i));
    assert b !in pinned;
    UnreferencedIsIdle(g, bufs, threads, pinned, i);
    RefsOne(bufs, threads, pinned, i, buf, t, th);
    PinnedKept(bufs, bufs[i := buf], i, pinned);
    RecycleBufs(g, bufs, i, buf);
  }

  lemma {:induction false} RecycleBufs(g: Geometry, bufs: seq<Buf>, i: nat, buf: Buf)
    requires BufsOk(g, bufs) && i < |bufs| && buf.blockno < g.blocks
    requires forall j: nat :: !Caches(bufs, j, buf.blockno)
    ensures BufsOk(g, bufs[i := buf])
  {
    assert forall j: nat :: j < |bufs| && bufs[j].dev == ROOTDEV ==> bufs[j].blockno != buf.blockno by {
      assert forall j: nat :: j < |bufs| && bufs[j].dev == ROOTDEV && bufs[j].blockno == buf.blockno ==>
        Caches(bufs, j, buf.blockno);
    }
  }

  /** A buffer with reference count 0 is unlocked, clean, unused and not pinned. */
  lemma {:induction false} UnreferencedIsIdle(g: Geometry, bufs: seq<Buf>, threads: seq<Thread>, pinned: seq<U32>,
      i: nat)
    requires LocksOk(bufs, threads) && DirtyOk(g, bufs, threads) && RefsOk(bufs, threads, pinned)
    requires i < |bufs| && bufs[i].refcnt == 0
    ensures bufs[i].owner.None? && !bufs[i].dirty && Pins(bufs[i], pinned) == 0
    ensures forall t :: 0 <= t < |threads| ==> Count(threads[t], i) == 0
  {
    forall t | 0 <= t < |threads| ensures Count(threads[t], i) == 0 {
      UsesAtLeast(threads, t, i);
    }
  }

  lemma {:induction false} AcquireCache(g: Geometry, bufs: seq<Buf>, threads: seq<Thread>, pinned: seq<U32>,
      disk: Disk, cur: Disk, t: nat, i: nat)
    requires CacheInv(g, bufs, threads, pinned, disk, cur)
    requires t < |threads| && threads[t].waiting == Some(i) && i < |bufs| && bufs[i].owner.None?
    ensures CacheInv(g, bufs[i := bufs[i].(owner := Some(t))],
                     threads[t := threads[t].(waiting := None, held := threads[t].held + {i})], pinned, disk, cur)
  {
    var buf, th := bufs[i].(owner := Some(t)), threads[t].(waiting := None, held := threads[t].held + {i});
    assert AssignedOnly(bufs, threads[t]) && Count(threads[t], i) > 0;
    RefsOne(bufs, threads, pinned, i, buf, t, th);
    PinnedKept(bufs, bufs[i := buf], i, pinned);
  }

  lemma {:induction false} UnlockCache(g: Geometry, bufs: seq<Buf>, threads: seq<Thread>, pinned: seq<U32>, disk: Disk,
      cur: Disk, t: nat, i: nat)
    requires CacheInv(g, bufs, threads, pinned, disk, cur)
    requires t < |threads| && threads[t].releasing.None? && i in threads[t].held && i < |bufs| && !bufs[i].dirty
    ensures CacheInv(g, bufs[i := bufs[i].(owner := None)],
                     threads[t := threads[t].(held := threads[t].held - {i}, releasing := Some(i))], pinned, disk, cur)
  {
    var buf, th := bufs[i].(owner := None), threads[t].(held := threads[t].held - {i}, releasing := Some(i));
    assert AssignedOnly(bufs, threads[t]) && Count(threads[t], i) > 0;
    RefsOne(bufs, threads, pinned, i, buf, t, th);
    PinnedKept(bufs, bufs[i := buf], i, pinned);
  }

  lemma {:induction false} UnrefCache(g: Geometry, bufs: seq<Buf>, threads: seq<Thread>, pinned: seq<U32>, disk: Disk,
      cur: Disk, t: nat, i: nat)
    requires CacheInv(g, bufs, threads, pinned, disk, cur)
    requires t < |threads| && threads[t].releasing == Some(i) && i < |bufs|
    ensures CacheInv(g, bufs[i := bufs[i].(refcnt := bufs[i].refcnt - 1)],
        threads[t := threads[t].(releasing := None)], pinned, disk, cur)
  {
    var buf, th := bufs[i].(refcnt := bufs[i].refcnt - 1), threads[t].(releasing := None);
    assert AssignedOnly(bufs, threads[t]) && Count(threads[t], i) > 0;
    RefsOne(bufs, threads, pinned, i, buf, t, th);
    PinnedKept(bufs, bufs[i := buf], i, pinned);
  }

  /** A thread that holds an invalid buffer reads it from the disk: its block is
      not pinned, so the disk has the current contents. */
  lemma {:induction false} ReadBlockCache(g: Geometry, bufs: seq<Buf>, threads: seq<Thread>, pinned: seq<U32>,
      disk: Disk, cur: Disk, i: nat)
    requires CacheInv(g, bufs, threads, pinned, disk, cur)
    requires i < |bufs| && !bufs[i].valid && bufs[i].blockno < |disk| == |cur|
    ensures CacheInv(g, bufs[i := bufs[i].(data := disk[bufs[i].blockno], valid := true)], threads, pinned, disk, cur)
    ensures bufs[i].dev == ROOTDEV ==> bufs[i].blockno !in pinned
  {
    var buf := bufs[i].(data := disk[bufs[i].blockno], valid := true);
    PinnedKept(bufs, bufs[i := buf], i, pinned);
    SameCounts(bufs, threads, pinned, i, buf);
  }

  lemma {:induction false} SameCounts(bufs: seq<Buf>, threads: seq<Thread>, pinned: seq<U32>, i: nat, buf: Buf)
    requires RefsOk(bufs, threads, pinned) && i < |bufs|
    requires buf.refcnt == bufs[i].refcnt && buf.dev == bufs[i].dev && buf.blockno == bufs[i].blockno
    ensures RefsOk(bufs[i := buf], threads, pinned)
  {
    forall t | 0 <= t < |threads| ensures AssignedOnly(bufs[i := buf], threads[t]) {
      assert AssignedOnly(bufs, threads[t]);
    }
  }

  lemma {:induction false} ModifyCache(g: Geometry, bufs: seq<Buf>, threads: seq<Thread>, pinned: seq<U32>, disk: Disk,
      cur: Disk,
                                       t: nat, i: nat, data: Block)
    requires CacheInv(g, bufs, threads, pinned, disk, cur)
    requires t < |threads| && i in threads[t].held && i < |bufs| && threads[t].inOp
    requires bufs[i].valid && bufs[i].dev == ROOTDEV && Home(g, bufs[i].blockno)
    ensures CacheInv(g, bufs[i := bufs[i].(data := data, dirty := true)], threads, pinned, disk, cur)
  {
    var buf := bufs[i].(data := data, dirty := true);
    PinnedKept(bufs, bufs[i := buf], i, pinned);
    SameCounts(bufs, threads, pinned, i, buf);
  }

  lemma {:induction false} LogWriteCache(g: Geometry, bufs: seq<Buf>, threads: seq<Thread>, pinned: seq<U32>,
      disk: Disk, cur: Disk,
                                         t: nat, i: nat)
    requires CacheInv(g, bufs, threads, pinned, disk, cur)
    requires t < |threads| && i in threads[t].held && i < |bufs|
    requires bufs[i].valid && bufs[i].dev == ROOTDEV && bufs[i].blockno < |disk| == |cur| < TWO_32
    ensures var b := bufs[i].blockno;
      CacheInv(g, bufs[i := bufs[i].(dirty := false, refcnt := bufs[i].refcnt + if b in pinned then 0 else 1)],
               threads, Log.Absorb(pinned, b), disk, cur[b := bufs[i].data])
  {
    hide RefsOk, CacheOk;
    var b := bufs[i].blockno;
    var buf := bufs[i].(dirty := false, refcnt := bufs[i].refcnt + if b in pinned then 0 else 1);
    var pinned' := Log.Absorb(pinned, b);
    RepinRefs(bufs, threads, pinned, i, buf, t, pinned');
    PinnedKept(bufs, bufs[i := buf], i, pinned);
    assert Caches(bufs[i := buf], i, b);
    LogWriteCurrent(g, bufs, pinned, disk, cur, i, buf);
  }

  lemma {:induction false} LogWriteCurrent(g: Geometry, bufs: seq<Buf>, pinned: seq<U32>, disk: Disk, cur: Disk,
      i: nat, buf: Buf)
    requires BufsOk(g, bufs) && CacheOk(bufs, pinned, disk, cur) && i < |bufs|
    requires buf.dev == bufs[i].dev == ROOTDEV && buf.blockno == bufs[i].blockno < |disk| == |cur| < TWO_32
    ensures CacheOk(bufs[i := buf], Log.Absorb(pinned, buf.blockno), disk, cur[buf.blockno := buf.data])
  {
    forall k | 0 <= k < |bufs| && k != i
      ensures BufCurrent(bufs[k], Log.Absorb(pinned, buf.blockno), disk, cur[buf.blockno := buf.data])
    {
      assert BufCurrent(bufs[k], pinned, disk, cur);
    }
  }

  /** Pinning or unpinning the block of buffer i alone. */
  lemma {:induction false} RepinRefs(bufs: seq<Buf>, threads: seq<Thread>, pinned: seq<U32>, i: nat, buf: Buf, t: nat,
      pinned': seq<U32>)
    requires RefsOk(bufs, threads, pinned) && i < |bufs| && t < |threads| && buf.dev == bufs[i].dev == ROOTDEV
    requires forall j, k :: 0 <= j < k < |bufs| && bufs[j].dev == bufs[k].dev == ROOTDEV ==>
      bufs[j].blockno != bufs[k].blockno
    requires forall b :: b != bufs[i].blockno ==> (b in pinned <==> b in pinned')
    requires buf.refcnt - Pins(buf, pinned') == bufs[i].refcnt - Pins(bufs[i], pinned)
    ensures RefsOk(bufs[i := buf], threads, pinned')
  {
    assert AssignedOnly(bufs, threads[t]);
    RefsStep(bufs, threads, pinned, bufs[i := buf], t, threads[t], pinned');
    assert threads[t := threads[t]] == threads;
  }

  /** memmove and bwrite of a buffer the committing thread holds: if its block is
      pinned, the new contents are the logged ones. */
  lemma {:induction false} WriteThroughCache(g: Geometry, bufs: seq<Buf>, threads: seq<Thread>, pinned: seq<U32>,
      disk: Disk, cur: Disk,
                                             i: nat, data: Block)
    requires CacheInv(g, bufs, threads, pinned, disk, cur)
    requires i < |bufs| && bufs[i].dev == ROOTDEV && bufs[i].blockno < |disk| == |cur| && !bufs[i].dirty
    requires bufs[i].blockno in pinned ==> data == cur[bufs[i].blockno]
    ensures CacheInv(g, bufs[i := bufs[i].(data := data)], threads, pinned, disk[bufs[i].blockno := data], cur)
  {
    var buf := bufs[i].(data := data);
    PinnedKept(bufs, bufs[i := buf], i, pinned);
    SameCounts(bufs, threads, pinned, i, buf);
  }

  lemma {:induction false} UnpinCache(g: Geometry, bufs: seq<Buf>, threads: seq<Thread>, pinned: seq<U32>, disk: Disk,
      cur: Disk, i: nat)
    requires CacheInv(g, bufs, threads, pinned, disk, cur)
    requires i < |bufs| && |threads| > 0 && |pinned| > 0 && pinned[0] !in pinned[1..] && Caches(bufs, i, pinned[0])
    requires bufs[i].blockno < |disk| == |cur| && disk[bufs[i].blockno] == cur[bufs[i].blockno]
    ensures CacheInv(g, bufs[i := bufs[i].(refcnt := bufs[i].refcnt - 1)], threads, pinned[1..], disk, cur)
  {
    var buf := bufs[i].(refcnt := bufs[i].refcnt - 1);
    assert pinned == [pinned[0]] + pinned[1..];
    RepinRefs(bufs, threads, pinned, i, buf, 0, pinned[1..]);
    PinnedKept(bufs, bufs[i := buf], i, pinned);
    forall k | 0 <= k < |bufs| && k != i ensures BufCurrent(bufs[k], pinned[1..], disk, cur) {
      assert BufCurrent(bufs[k], pinned, disk, cur);
    }
    assert BufCurrent(buf, pinned[1..], disk, cur) by { assert BufCurrent(bufs[i], pinned, disk, cur); }
  }

  /** begin_op and end_op change only the flag; a thread that ends its operation has logged all its changes. */
  lemma {:induction false} FlagCache(g: Geometry, bufs: seq<Buf>, threads: seq<Thread>, pinned: seq<U32>, disk: Disk,
      cur: Disk,
                                     t: nat, inOp: bool)
    requires CacheInv(g, bufs, threads, pinned, disk, cur) && t < |threads|
    requires inOp || forall i :: i in threads[t].held && i < |bufs| ==> !bufs[i].dirty
    ensures CacheInv(g, bufs, threads[t := threads[t].(inOp := inOp)], pinned, disk, cur)
  {
    var th := threads[t].(inOp := inOp);
    assert AssignedOnly(bufs, threads[t]);
    forall i: nat | Count(th, i) > 0 ensures i < |bufs| && bufs[i].dev == ROOTDEV {
      assert Count(threads[t], i) == Count(th, i);
    }
    RefsStep(bufs, threads, pinned, bufs, t, th, pinned);
  }
}
