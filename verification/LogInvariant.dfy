/** What every step of the log machine keeps. */
module LogInvariant {
  import opened Bytes
  import opened LogFormat
  import opened LogMachine

  /** The blocks log_write has pinned and commit has not yet unpinned. */
  function Pinned(phase: Phase, lh: seq<U32>): (r: seq<U32>) {
    match phase
    case Running => lh
    case LogBlocks(_) => lh
    case Installing(k) => if k <= |lh| then lh[k..] else []
    case Unpinning(k) => if k <= |lh| then lh[k..] else []
    case _ => []
  }

  // ----- buffers and locks -----

  ghost predicate BufsOk(g: Geometry, bufs: seq<Buf>) {
    && |bufs| == NBUF
    && (forall i :: 0 <= i < |bufs| && bufs[i].dev == ROOTDEV ==> bufs[i].blockno < g.blocks)
    && (forall i, j :: 0 <= i < j < |bufs| && bufs[i].dev == ROOTDEV && bufs[j].dev == ROOTDEV ==>
          bufs[i].blockno != bufs[j].blockno)
  }

  ghost predicate LocksOk(bufs: seq<Buf>, threads: seq<Thread>) {
    && (forall t, i {:trigger i in threads[t].held} :: 0 <= t < |threads| && i in threads[t].held ==>
          i < |bufs| && bufs[i].owner == Some(t))
    && (forall i :: 0 <= i < |bufs| && bufs[i].owner.Some? ==>
          bufs[i].owner.value < |threads| && i in threads[bufs[i].owner.value].held)
  }

  ghost predicate DirtyOk(g: Geometry, bufs: seq<Buf>, threads: seq<Thread>) {
    forall i :: 0 <= i < |bufs| && bufs[i].dirty ==>
      && bufs[i].owner.Some? && bufs[i].owner.value < |threads| && threads[bufs[i].owner.value].inOp
      && bufs[i].valid && bufs[i].dev == ROOTDEV && Home(g, bufs[i].blockno)
  }

  // ----- reference counts -----

  /** The references one thread has to buffer i: waiting for it, holding it, releasing it. */
  function Count(th: Thread, i: nat): (n: nat) {
    (if th.waiting == Some(i) then 1 else 0) + (if i in th.held then 1 else 0)
        + (if th.releasing == Some(i) then 1 else 0)
  }

  /** The references all threads have to buffer i. */
  function Uses(threads: seq<Thread>, i: nat): (n: nat) {
    if threads == [] then 0 else Uses(threads[..|threads| - 1], i) + Count(threads[|threads| - 1], i)
  }

  ghost function Pins(buf: Buf, pinned: seq<U32>): (n: nat) {
    if buf.dev == ROOTDEV && buf.blockno in pinned then 1 else 0
  }

  /** A buffer's reference count is its holders, waiters and releasers, plus one
      while its block is logged and not yet installed. */
  ghost predicate RefsOk(bufs: seq<Buf>, threads: seq<Thread>, pinned: seq<U32>) {
    && (forall i :: 0 <= i < |bufs| ==> bufs[i].refcnt == Uses(threads, i) + Pins(bufs[i], pinned))
    && (forall t :: 0 <= t < |threads| ==> AssignedOnly(bufs, threads[t]))
  }

  /** A thread refers only to buffers that have been given a block. */
  ghost predicate AssignedOnly(bufs: seq<Buf>, th: Thread) {
    forall i: nat :: Count(th, i) > 0 ==> i < |bufs| && bufs[i].dev == ROOTDEV
  }

  lemma {:induction false} UsesUpdate(threads: seq<Thread>, t: nat, th: Thread, i: nat)
    requires t < |threads|
    ensures Uses(threads[t := th], i) == Uses(threads, i) - Count(threads[t], i) + Count(th, i)
  {
    var n := |threads| - 1;
    if t < n {
      UsesUpdate(threads[..n], t, th, i);
      assert threads[t := th][..n] == threads[..n][t := th];
    } else {
      assert threads[t := th][..n] == threads[..n];
    }
  }

  lemma {:induction false} UsesAtLeast(threads: seq<Thread>, t: nat, i: nat)
    requires t < |threads|
    ensures Uses(threads, i) >= Count(threads[t], i)
  {
    var n := |threads| - 1;
    if t < n {
      UsesAtLeast(threads[..n], t, i);
    }
  }

  lemma {:induction false} NoUses(threads: seq<Thread>, i: nat)
    requires forall t :: 0 <= t < |threads| ==> Count(threads[t], i) == 0
    ensures Uses(threads, i) == 0
  {
    if threads != [] {
      NoUses(threads[..|threads| - 1], i);
    }
  }

  /** The general bookkeeping step: one thread changes how it uses buffers, and
      every reference count moves by the change in uses and pins. */
  lemma {:induction false} RefsStep(bufs: seq<Buf>, threads: seq<Thread>, pinned: seq<U32>,
                                    bufs': seq<Buf>, t: nat, th: Thread, pinned': seq<U32>)
    requires RefsOk(bufs, threads, pinned) && |bufs'| == |bufs| && t < |threads|
    requires forall i :: 0 <= i < |bufs| ==>
      bufs'[i].refcnt - Pins(bufs'[i], pinned') - Count(th, i)
        == bufs[i].refcnt - Pins(bufs[i], pinned) - Count(threads[t], i)
    requires forall i :: 0 <= i < |bufs| && bufs[i].dev == ROOTDEV ==> bufs'[i].dev == ROOTDEV
    requires AssignedOnly(bufs', th)
    ensures RefsOk(bufs', threads[t := th], pinned')
  {
    forall i | 0 <= i < |bufs'|
      ensures bufs'[i].refcnt == Uses(threads[t := th], i) + Pins(bufs'[i], pinned')
    {
      UsesUpdate(threads, t, th, i);
    }
    var threads' := threads[t := th];
    forall t' | 0 <= t' < |threads'| ensures AssignedOnly(bufs', threads'[t']) {
      assert AssignedOnly(bufs, threads[t']);
    }
  }

  // ----- cached contents -----

  ghost predicate PinnedCached(bufs: seq<Buf>, pinned: seq<U32>) {
    forall b :: b in pinned ==> exists i: nat :: Caches(bufs, i, b) && bufs[i].valid
  }

  /** Every valid buffer that nobody is in the middle of changing holds the
      logged contents of its block if it is pinned, and the disk contents otherwise. */
  ghost predicate CacheOk(bufs: seq<Buf>, pinned: seq<U32>, disk: Disk, cur: Disk) {
    forall i :: 0 <= i < |bufs| ==> BufCurrent(bufs[i], pinned, disk, cur)
  }

  ghost predicate BufCurrent(buf: Buf, pinned: seq<U32>, disk: Disk, cur: Disk) {
    buf.dev == ROOTDEV && buf.valid && !buf.dirty ==>
      && buf.blockno < |disk| == |cur|
      && buf.data == if buf.blockno in pinned then cur[buf.blockno] else disk[buf.blockno]
  }

  // ----- operations -----

  ghost function InOp(threads: seq<Thread>): set<nat> {
    set t: nat | t < |threads| && threads[t].inOp
  }

  predicate Committing(phase: Phase) {
    phase.LogBlocks? || phase.Installing? || phase.Unpinning? || phase.Erasing? || phase.Finishing?
  }

  /** outstanding counts the operations in progress; a commit runs only when there are none. */
  ghost predicate OpsOk(ops: set<nat>, outstanding: int, committing: bool, phase: Phase) {
    && outstanding == |ops|
    && (phase.Running? || ops == {})
    && committing == Committing(phase)
  }

  ghost predicate TraceOk(g: Geometry, trace: seq<Event>, durable: nat, ops: set<nat>) {
    && Bracketed(g, trace)
    && Open(trace) == ops
    && durable <= |trace|
    && Open(trace[..durable]) == {}
    && Bracketed(g, trace[..durable])
  }

  // ----- the disk -----

  /** What the disk holds in each phase, against the history of operations. */
  ghost predicate DiskOk(g: Geometry, boot: Disk, disk: Disk, lh: seq<U32>, phase: Phase, trace: seq<Event>,
      durable: nat)
  {
    && GoodHead(g, lh)
    && durable <= |trace|
    && RecoversTo(g, disk, Replay(boot, trace[..durable]))
    && PhaseOk(g, disk, lh, phase, Replay(boot, trace))
    && (phase.Running? || phase.LogBlocks? || durable == |trace|)
  }

  ghost predicate PhaseOk(g: Geometry, disk: Disk, lh: seq<U32>, phase: Phase, cur: Disk)
    requires GoodHead(g, lh) && GoodLog(g, disk) && |cur| == |disk|
  {
    var head := GetHead(disk[g.start]);
    match phase
    case Running => head == [] && Unlogged(g, disk, lh, cur)
    case LogBlocks(k) => head == [] && Unlogged(g, disk, lh, cur) && k <= |lh| && InLogArea(g, disk, lh, k, cur)
    case Installing(k) => head == lh && k <= |lh| && InPlace(g, disk, lh, k, cur)
    case Unpinning(k) => head == lh && k < |lh| && InPlace(g, disk, lh, k + 1, cur)
    case Replaying(k) => head == lh && k <= |lh| && InPlace(g, disk, lh, k, cur)
    case Erasing => lh == [] && SameHome(g, disk, cur)
    case BootErasing => lh == [] && SameHome(g, disk, cur)
    case Finishing => lh == [] && head == []
    case Booting => lh == []
  }

  ghost predicate Unlogged(g: Geometry, disk: Disk, lh: seq<U32>, cur: Disk)
    requires |disk| == |cur| == g.blocks
  {
    forall b {:trigger cur[b]} :: Home(g, b) && b !in lh ==> disk[b] == cur[b]
  }

  ghost predicate InLogArea(g: Geometry, disk: Disk, lh: seq<U32>, k: nat, cur: Disk)
    requires GoodHead(g, lh) && k <= |lh| && |disk| == |cur| == g.blocks
  {
    forall j :: 0 <= j < k ==> disk[g.start + 1 + j] == cur[lh[j]]
  }

  ghost predicate InPlace(g: Geometry, disk: Disk, lh: seq<U32>, k: nat, cur: Disk)
    requires GoodHead(g, lh) && k <= |lh| && |disk| == |cur| == g.blocks
  {
    forall j :: 0 <= j < k ==> disk[lh[j]] == cur[lh[j]]
  }

  // ----- the whole -----

  ghost predicate CacheInv(g: Geometry, bufs: seq<Buf>, threads: seq<Thread>, pinned: seq<U32>, disk: Disk, cur: Disk) {
    && BufsOk(g, bufs)
    && LocksOk(bufs, threads)
    && DirtyOk(g, bufs, threads)
    && RefsOk(bufs, threads, pinned)
    && PinnedCached(bufs, pinned)
    && CacheOk(bufs, pinned, disk, cur)
  }

  ghost predicate Inv(g: Geometry, boot: Disk, s: State) {
    && s.committer < |s.threads|
    && |s.disk| == |boot| == g.blocks
    && CacheInv(g, s.bufs, s.threads, Pinned(s.phase, s.lh), s.disk, Replay(boot, s.trace))
    && OpsOk(InOp(s.threads), s.outstanding, s.committing, s.phase)
    && TraceOk(g, s.trace, s.durable, InOp(s.threads))
    && (s.committing ==> |s.trace| > 0 && s.trace[|s.trace| - 1] == End(s.committer))
    && DiskOk(g, boot, s.disk, s.lh, s.phase, s.trace, s.durable)
  }
}
