/** Crash safety of the log over whole runs: however operations, commits,
    crashes and recoveries interleave, the disk always recovers to a prefix of
    whole operations, and that prefix only ever grows. */
module LogTheorems {
  import opened Bytes
  import opened LogFormat
  import opened LogMachine
  import opened LogInvariant
  import opened LogSteps
  import opened LogDiskSteps
  import Log

  /** A step that changes only buffers and threads, and no operation's status,
      keeps the invariant if it keeps the cache's part. */
  lemma {:induction false} BuffersOnly(g: Geometry, boot: Disk, s: State, bufs: seq<Buf>, threads: seq<Thread>)
    requires Inv(g, boot, s) && |threads| == |s.threads| && InOp(threads) == InOp(s.threads)
    requires CacheInv(g, bufs, threads, Pinned(s.phase, s.lh), s.disk, Replay(boot, s.trace))
    ensures Inv(g, boot, s.(bufs := bufs, threads := threads))
  {
    hide CacheInv, DiskOk;
  }

  lemma {:induction false} HitStep(g: Geometry, boot: Disk, s: State, t: nat, i: nat)
    requires Inv(g, boot, s) && Ready(s, t) && i < |s.bufs| && s.bufs[i].dev == ROOTDEV
    ensures Inv(g, boot, AfterHit(s, t, i))
  {
    hide CacheInv, DiskOk;
    BgetHitCache(g, s.bufs, s.threads, Pinned(s.phase, s.lh), s.disk, Replay(boot, s.trace), t, i);
    SameOps(s.threads, t, s.threads[t].(waiting := Some(i)));
    BuffersOnly(g, boot, s, AfterHit(s, t, i).bufs, AfterHit(s, t, i).threads);
  }

  lemma {:induction false} MissStep(g: Geometry, boot: Disk, s: State, t: nat, i: nat, b: nat)
    requires Inv(g, boot, s) && Ready(s, t) && i < |s.bufs| && s.bufs[i].refcnt == 0 && b < g.blocks
    requires forall j: nat :: !Caches(s.bufs, j, b)
    ensures Inv(g, boot, AfterMiss(s, t, i, b))
  {
    hide CacheInv, DiskOk;
    BgetMissCache(g, s.bufs, s.threads, Pinned(s.phase, s.lh), s.disk, Replay(boot, s.trace), t, i, b);
    SameOps(s.threads, t, s.threads[t].(waiting := Some(i)));
    BuffersOnly(g, boot, s, AfterMiss(s, t, i, b).bufs, AfterMiss(s, t, i, b).threads);
  }

  lemma {:induction false} SameOps(threads: seq<Thread>, t: nat, th: Thread)
    requires t < |threads| && th.inOp == threads[t].inOp
    ensures InOp(threads[t := th]) == InOp(threads)
  {
  }

  lemma {:induction false} AcquireStep(g: Geometry, boot: Disk, s: State, t: nat, i: nat)
    requires Inv(g, boot, s) && t < |s.threads| && s.threads[t].waiting == Some(i) && i < |s.bufs|
      && s.bufs[i].owner.None?
    ensures Inv(g, boot, AfterAcquire(s, t, i))
  {
    hide CacheInv, DiskOk;
    AcquireCache(g, s.bufs, s.threads, Pinned(s.phase, s.lh), s.disk, Replay(boot, s.trace), t, i);
    SameOps(s.threads, t, s.threads[t].(waiting := None, held := s.threads[t].held + {i}));
    BuffersOnly(g, boot, s, AfterAcquire(s, t, i).bufs, AfterAcquire(s, t, i).threads);
  }

  lemma {:induction false} ReadStep(g: Geometry, boot: Disk, s: State, i: nat)
    requires Inv(g, boot, s) && i < |s.bufs| && !s.bufs[i].valid && s.bufs[i].blockno < |s.disk|
    ensures Inv(g, boot, AfterRead(s, i))
  {
    hide CacheInv, DiskOk;
    ReadBlockCache(g, s.bufs, s.threads, Pinned(s.phase, s.lh), s.disk, Replay(boot, s.trace), i);
    BuffersOnly(g, boot, s, AfterRead(s, i).bufs, AfterRead(s, i).threads);
  }

  lemma {:induction false} UnlockStep(g: Geometry, boot: Disk, s: State, t: nat, i: nat)
    requires Inv(g, boot, s) && Ready(s, t) && i in s.threads[t].held && i < |s.bufs| && !s.bufs[i].dirty
    ensures Inv(g, boot, AfterUnlock(s, t, i))
  {
    hide CacheInv, DiskOk;
    UnlockCache(g, s.bufs, s.threads, Pinned(s.phase, s.lh), s.disk, Replay(boot, s.trace), t, i);
    SameOps(s.threads, t, s.threads[t].(held := s.threads[t].held - {i}, releasing := Some(i)));
    BuffersOnly(g, boot, s, AfterUnlock(s, t, i).bufs, AfterUnlock(s, t, i).threads);
  }

  lemma {:induction false} UnrefStep(g: Geometry, boot: Disk, s: State, t: nat, i: nat)
    requires Inv(g, boot, s) && t < |s.threads| && s.threads[t].releasing == Some(i) && i < |s.bufs|
    ensures Inv(g, boot, AfterUnref(s, t, i))
  {
    hide CacheInv, DiskOk;
    UnrefCache(g, s.bufs, s.threads, Pinned(s.phase, s.lh), s.disk, Replay(boot, s.trace), t, i);
    SameOps(s.threads, t, s.threads[t].(releasing := None));
    BuffersOnly(g, boot, s, AfterUnref(s, t, i).bufs, AfterUnref(s, t, i).threads);
  }

  lemma {:induction false} ModifyStep(g: Geometry, boot: Disk, s: State, t: nat, i: nat, data: Block)
    requires Inv(g, boot, s) && i < |s.bufs| && HoldsBlock(s, t, i, s.bufs[i].blockno)
    requires s.threads[t].inOp && Home(g, s.bufs[i].blockno)
    ensures Inv(g, boot, AfterModify(s, i, data))
  {
    hide CacheInv, DiskOk;
    ModifyCache(g, s.bufs, s.threads, Pinned(s.phase, s.lh), s.disk, Replay(boot, s.trace), t, i, data);
    BuffersOnly(g, boot, s, AfterModify(s, i, data).bufs, AfterModify(s, i, data).threads);
  }

  lemma {:induction false} BeginOpStep(g: Geometry, boot: Disk, s: State, t: nat)
    requires Inv(g, boot, s) && t < |s.threads| && !s.threads[t].inOp && s.phase.Running?
    ensures Inv(g, boot, AfterBeginOp(s, t))
  {
    hide CacheInv;
    FlagCache(g, s.bufs, s.threads, s.lh, s.disk, Replay(boot, s.trace), t, true);
    var ops' := InOp(s.threads[t := s.threads[t].(inOp := true)]);
    assert ops' == InOp(s.threads) + {t};
    AppendTrace(g, s.trace, s.durable, InOp(s.threads), Begin(t), ops');
    AppendReplay(boot, s.trace, Begin(t));
    MarkDisk(g, boot, s.disk, s.lh, s.trace, s.durable, Begin(t));
  }

  lemma {:induction false} EndOpStep(g: Geometry, boot: Disk, s: State, t: nat)
    requires Inv(g, boot, s) && t < |s.threads| && s.threads[t].inOp
    requires forall i :: i in s.threads[t].held && i < |s.bufs| ==> !s.bufs[i].dirty
    ensures Inv(g, boot, AfterEndOp(s, t))
  {
    hide CacheInv;
    assert t in InOp(s.threads);
    FlagCache(g, s.bufs, s.threads, s.lh, s.disk, Replay(boot, s.trace), t, false);
    var ops' := InOp(s.threads[t := s.threads[t].(inOp := false)]);
    assert ops' == InOp(s.threads) - {t};
    AppendTrace(g, s.trace, s.durable, InOp(s.threads), End(t), ops');
    AppendReplay(boot, s.trace, End(t));
    MarkDisk(g, boot, s.disk, s.lh, s.trace, s.durable, End(t));
    StartCommitDisk(g, boot, s.disk, s.lh, s.trace + [End(t)], s.durable);
  }

  lemma {:induction false} LogWriteHistory(g: Geometry, boot: Disk, s: State, t: nat, i: nat)
    requires Inv(g, boot, s) && i < |s.bufs| && HoldsBlock(s, t, i, s.bufs[i].blockno)
    requires s.threads[t].inOp && Home(g, s.bufs[i].blockno) && |s.lh| < LOGSIZE && |s.lh| < g.size - 1
    ensures s.phase == Running
    ensures var s' := AfterLogWrite(s, t, i);
      TraceOk(g, s'.trace, s'.durable, InOp(s'.threads))
        && DiskOk(g, boot, s'.disk, s'.lh, s'.phase, s'.trace, s'.durable)
  {
    var b, data := s.bufs[i].blockno, s.bufs[i].data;
    assert t in InOp(s.threads);
    AppendTrace(g, s.trace, s.durable, InOp(s.threads), Write(t, b, data), InOp(s.threads));
    LogWriteDisk(g, boot, s.disk, s.lh, s.trace, s.durable, t, b, data);
  }

  lemma {:induction false} LogWriteParts(g: Geometry, boot: Disk, bufs: seq<Buf>, threads: seq<Thread>, disk: Disk,
      lh: seq<U32>, trace: seq<Event>, t: nat, i: nat)
    requires CacheInv(g, bufs, threads, lh, disk, Replay(boot, trace)) && |disk| == |boot| == g.blocks
    requires t < |threads| && i in threads[t].held && i < |bufs| && bufs[i].dev == ROOTDEV && bufs[i].valid
    requires Home(g, bufs[i].blockno)
    ensures var b := bufs[i].blockno;
      CacheInv(g, bufs[i := bufs[i].(dirty := false, refcnt := bufs[i].refcnt + if b in lh then 0 else 1)], threads,
               Log.Absorb(lh, b), disk, Replay(boot, trace + [Write(t, b, bufs[i].data)]))
  {
    hide CacheInv;
    LogWriteCache(g, bufs, threads, lh, disk, Replay(boot, trace), t, i);
    AppendReplay(boot, trace, Write(t, bufs[i].blockno, bufs[i].data));
  }

  lemma {:induction false} LogWriteBuffers(g: Geometry, boot: Disk, s: State, t: nat, i: nat)
    requires CacheInv(g, s.bufs, s.threads, s.lh, s.disk, Replay(boot, s.trace)) && |s.disk| == |boot| == g.blocks
    requires i < |s.bufs| && HoldsBlock(s, t, i, s.bufs[i].blockno) && Home(g, s.bufs[i].blockno)
    ensures var s' := AfterLogWrite(s, t, i);
      CacheInv(g, s'.bufs, s'.threads, s'.lh, s'.disk, Replay(boot, s'.trace))
  {
    hide CacheInv;
    LogWriteParts(g, boot, s.bufs, s.threads, s.disk, s.lh, s.trace, t, i);
  }

  /** What bread gives the committing thread. No thread is inside an operation
      then, so the buffer carries no unlogged change: for a block still pinned it
      is the logged contents, never the stale disk copy. */
  lemma {:induction false} BreadInCommit(g: Geometry, bufs: seq<Buf>, threads: seq<Thread>, pinned: seq<U32>,
      disk: Disk, cur: Disk, i: nat)
    requires CacheInv(g, bufs, threads, pinned, disk, cur) && InOp(threads) == {}
    requires i < |bufs| && bufs[i].dev == ROOTDEV && bufs[i].valid
    ensures !bufs[i].dirty && bufs[i].blockno < |disk| == |cur|
    ensures bufs[i].data == if bufs[i].blockno in pinned then cur[bufs[i].blockno] else disk[bufs[i].blockno]
  {
    assert forall t :: 0 <= t < |threads| ==> !threads[t].inOp by {
      assert forall t :: 0 <= t < |threads| && threads[t].inOp ==> t in InOp(threads);
    }
    assert BufCurrent(bufs[i], pinned, disk, cur);
  }

  lemma {:induction false} NotListed(g: Geometry, lh: seq<U32>, b: int)
    requires GoodHead(g, lh) && InLog(g, b)
    ensures b !in lh
    ensures forall k :: 0 <= k <= |lh| ==> b !in lh[k..]
  {
    assert forall i :: 0 <= i < |lh| ==> Home(g, lh[i]);
  }

  lemma {:induction false} CopyToLogParts(g: Geometry, boot: Disk, bufs: seq<Buf>, threads: seq<Thread>, disk: Disk,
      lh: seq<U32>,
                                          k: nat, trace: seq<Event>, durable: nat, i: nat, j: nat)
    requires CacheInv(g, bufs, threads, lh, disk, Replay(boot, trace)) && InOp(threads) == {}
    requires DiskOk(g, boot, disk, lh, LogBlocks(k), trace, durable) && k < |lh|
    requires Caches(bufs, i, g.start + k + 1) && bufs[i].valid && Caches(bufs, j, lh[k]) && bufs[j].valid
    ensures CacheInv(g, bufs[i := bufs[i].(data := bufs[j].data)], threads, lh,
                     disk[bufs[i].blockno := bufs[j].data], Replay(boot, trace))
    ensures DiskOk(g, boot, disk[bufs[i].blockno := bufs[j].data], lh, LogBlocks(k + 1), trace, durable)
  {
    hide CacheInv;
    var cur := Replay(boot, trace);
    BreadInCommit(g, bufs, threads, lh, disk, cur, i);
    BreadInCommit(g, bufs, threads, lh, disk, cur, j);
    NotListed(g, lh, g.start + 1 + k);
    WriteThroughCache(g, bufs, threads, lh, disk, cur, i, bufs[j].data);
    CopyToLogDisk(g, boot, disk, lh, k, trace, durable);
  }

  lemma {:induction false} CopyToLogStep(g: Geometry, boot: Disk, s: State, i: nat, j: nat)
    requires Inv(g, boot, s) && s.phase.LogBlocks? && s.phase.tail < |s.lh|
    requires Caches(s.bufs, i, g.start + s.phase.tail + 1) && s.bufs[i].valid
    requires Caches(s.bufs, j, s.lh[s.phase.tail]) && s.bufs[j].valid
    ensures Inv(g, boot, AfterCopyToLog(s, i, j))
  {
    hide CacheInv;
    CopyToLogParts(g, boot, s.bufs, s.threads, s.disk, s.lh, s.phase.tail, s.trace, s.durable, i, j);
  }

  lemma {:induction false} CommitHeadParts(g: Geometry, boot: Disk, bufs: seq<Buf>, threads: seq<Thread>, disk: Disk,
      lh: seq<U32>,
                                           trace: seq<Event>, durable: nat, i: nat)
    requires CacheInv(g, bufs, threads, lh, disk, Replay(boot, trace)) && InOp(threads) == {}
    requires DiskOk(g, boot, disk, lh, LogBlocks(|lh|), trace, durable) && |lh| <= LOGSIZE
    requires Caches(bufs, i, g.start) && bufs[i].valid
    ensures var h := PutHead(bufs[i].data, lh);
      && CacheInv(g, bufs[i := bufs[i].(data := h)], threads, lh, disk[bufs[i].blockno := h], Replay(boot, trace))
      && DiskOk(g, boot, disk[bufs[i].blockno := h], lh, Installing(0), trace, |trace|)
  {
    hide CacheInv;
    var h, cur := PutHead(bufs[i].data, lh), Replay(boot, trace);
    BreadInCommit(g, bufs, threads, lh, disk, cur, i);
    NotListed(g, lh, g.start);
    WriteThroughCache(g, bufs, threads, lh, disk, cur, i, h);
    HeadRoundTrip(bufs[i].data, lh);
    CommitHeadDisk(g, boot, disk, lh, trace, durable, h);
  }

  lemma {:induction false} CommitHeadStep(g: Geometry, boot: Disk, s: State, i: nat)
    requires Inv(g, boot, s) && s.phase.LogBlocks? && s.phase.tail == |s.lh| <= LOGSIZE
    requires Caches(s.bufs, i, g.start) && s.bufs[i].valid
    ensures Inv(g, boot, AfterCommitHead(s, i))
  {
    hide CacheInv, DiskOk;
    CommitHeadParts(g, boot, s.bufs, s.threads, s.disk, s.lh, s.trace, s.durable, i);
    assert s.lh[0..] == s.lh;
    assert s.trace[..|s.trace|] == s.trace;
  }

  lemma {:induction false} InstallParts(g: Geometry, boot: Disk, bufs: seq<Buf>, threads: seq<Thread>, disk: Disk,
      lh: seq<U32>,
                                        phase: Phase, trace: seq<Event>, durable: nat, i: nat, j: nat)
    requires CacheInv(g, bufs, threads, Pinned(phase, lh), disk, Replay(boot, trace)) && InOp(threads) == {}
    requires DiskOk(g, boot, disk, lh, phase, trace, durable) && (phase.Installing? || phase.Replaying?)
      && phase.tail < |lh|
    requires Caches(bufs, i, g.start + phase.tail + 1) && bufs[i].valid && Caches(bufs, j, lh[phase.tail])
      && bufs[j].valid
    ensures CacheInv(g, bufs[j := bufs[j].(data := bufs[i].data)], threads, Pinned(phase, lh),
                     disk[bufs[j].blockno := bufs[i].data], Replay(boot, trace))
    ensures DiskOk(g, boot, disk[bufs[j].blockno := bufs[i].data], lh,
                   if phase.Installing? then Unpinning(phase.tail) else Replaying(phase.tail + 1), trace, durable)
  {
    hide CacheInv;
    var cur, pinned := Replay(boot, trace), Pinned(phase, lh);
    assert bufs[i].data == disk[g.start + 1 + phase.tail] && !bufs[j].dirty by {
      BreadInCommit(g, bufs, threads, pinned, disk, cur, i);
      BreadInCommit(g, bufs, threads, pinned, disk, cur, j);
      NotListed(g, lh, g.start + 1 + phase.tail);
    }
    InstallDisk(g, boot, disk, lh, phase, trace, durable);
    WriteThroughCache(g, bufs, threads, pinned, disk, cur, j, bufs[i].data);
  }

  lemma {:induction false} InstallStep(g: Geometry, boot: Disk, s: State, i: nat, j: nat)
    requires Inv(g, boot, s) && (s.phase.Installing? || s.phase.Replaying?) && s.phase.tail < |s.lh|
    requires Caches(s.bufs, i, g.start + s.phase.tail + 1) && s.bufs[i].valid
    requires Caches(s.bufs, j, s.lh[s.phase.tail]) && s.bufs[j].valid
    ensures Inv(g, boot, AfterInstall(s, i, j))
  {
    hide CacheInv, RecoversTo, TraceOk, PhaseOk;
    InstallParts(g, boot, s.bufs, s.threads, s.disk, s.lh, s.phase, s.trace, s.durable, i, j);
  }

  lemma {:induction false} UnpinParts(g: Geometry, boot: Disk, bufs: seq<Buf>, threads: seq<Thread>, disk: Disk,
      lh: seq<U32>,
                                      k: nat, trace: seq<Event>, durable: nat, j: nat)
    requires DiskOk(g, boot, disk, lh, Unpinning(k), trace, durable)
    requires CacheInv(g, bufs, threads, lh[k..], disk, Replay(boot, trace)) && |threads| > 0 && Caches(bufs, j, lh[k])
    ensures CacheInv(g, bufs[j := bufs[j].(refcnt := bufs[j].refcnt - 1)], threads, lh[k + 1..], disk,
        Replay(boot, trace))
    ensures DiskOk(g, boot, disk, lh, Installing(k + 1), trace, durable)
  {
    hide CacheInv;
    UnpinDisk(g, boot, disk, lh, k, trace, durable);
    DistinctAt(lh, k);
    assert lh[k..][1..] == lh[k + 1..];
    UnpinCache(g, bufs, threads, lh[k..], disk, Replay(boot, trace), j);
  }

  lemma {:induction false} UnpinStep(g: Geometry, boot: Disk, s: State, j: nat)
    requires Inv(g, boot, s) && s.phase.Unpinning? && s.phase.tail < |s.lh| && Caches(s.bufs, j, s.lh[s.phase.tail])
    ensures Inv(g, boot, AfterUnpin(s, j))
  {
    hide CacheInv;
    UnpinParts(g, boot, s.bufs, s.threads, s.disk, s.lh, s.phase.tail, s.trace, s.durable, j);
  }

  lemma {:induction false} StartEraseStep(g: Geometry, boot: Disk, s: State)
    requires Inv(g, boot, s) && Enabled(g, s, StartErase)
    ensures Inv(g, boot, AfterStartErase(s))
  {
    hide CacheInv, RecoversTo, TraceOk;
    StartEraseDisk(g, boot, s.disk, s.lh, s.phase, s.trace, s.durable);
    assert s.lh[|s.lh|..] == [];
  }

  lemma {:induction false} EraseParts(g: Geometry, boot: Disk, bufs: seq<Buf>, threads: seq<Thread>, disk: Disk,
                                      phase: Phase, trace: seq<Event>, durable: nat, i: nat)
    requires CacheInv(g, bufs, threads, [], disk, Replay(boot, trace)) && InOp(threads) == {}
    requires DiskOk(g, boot, disk, [], phase, trace, durable) && (phase.Erasing? || phase.BootErasing?)
    requires Caches(bufs, i, g.start) && bufs[i].valid
    ensures var h := PutHead(bufs[i].data, []);
      && CacheInv(g, bufs[i := bufs[i].(data := h)], threads, [], disk[bufs[i].blockno := h], Replay(boot, trace))
      && DiskOk(g, boot, disk[bufs[i].blockno := h], [], if phase.Erasing? then Finishing else Running, trace, durable)
  {
    hide CacheInv;
    var h, cur := PutHead(bufs[i].data, []), Replay(boot, trace);
    BreadInCommit(g, bufs, threads, [], disk, cur, i);
    WriteThroughCache(g, bufs, threads, [], disk, cur, i, h);
    HeadRoundTrip(bufs[i].data, []);
    EraseDisk(g, boot, disk, phase, trace, durable, h);
  }

  lemma {:induction false} EraseStep(g: Geometry, boot: Disk, s: State, i: nat)
    requires Inv(g, boot, s) && (s.phase.Erasing? || s.phase.BootErasing?) && Caches(s.bufs, i, g.start)
      && s.bufs[i].valid
    ensures Inv(g, boot, AfterErase(s, i))
  {
    hide CacheInv;
    EraseParts(g, boot, s.bufs, s.threads, s.disk, s.phase, s.trace, s.durable, i);
  }

  lemma {:induction false} SkipStep(g: Geometry, boot: Disk, s: State)
    requires Inv(g, boot, s) && s.phase.LogBlocks? && s.lh == []
    ensures Inv(g, boot, s.(phase := Finishing, durable := |s.trace|))
  {
    assert s.trace[..|s.trace|] == s.trace;
    SkipCommitDisk(g, boot, s.disk, s.phase.tail, s.trace, s.durable);
  }

  lemma {:induction false} FinishStep(g: Geometry, boot: Disk, s: State)
    requires Inv(g, boot, s) && s.phase.Finishing?
    ensures Inv(g, boot, s.(committing := false, phase := Running))
  {
    assert s.trace[..|s.trace|] == s.trace;
    FinishDisk(g, boot, s.disk, s.trace, s.durable);
  }

  lemma {:induction false} FreshCache(g: Geometry, bufs: seq<Buf>, threads: seq<Thread>, disk: Disk, cur: Disk)
    requires bufs == seq(NBUF, _ => FRESH_BUF) && threads == seq(|threads|, _ => FRESH_THREAD)
    ensures CacheInv(g, bufs, threads, [], disk, cur)
    ensures InOp(threads) == {}
  {
    forall i | 0 <= i < |bufs| ensures bufs[i].refcnt == Uses(threads, i) + Pins(bufs[i], []) {
      NoUses(threads, i);
    }
  }

  lemma {:induction false} CrashStep(g: Geometry, boot: Disk, s: State, t: nat)
    requires Inv(g, boot, s) && t < |s.threads|
    ensures Inv(g, boot, AfterCrash(s, t))
  {
    var s' := AfterCrash(s, t);
    FreshCache(g, s'.bufs, s'.threads, s.disk, Replay(boot, s'.trace));
    CrashDisk(g, boot, s.disk, s.lh, s.phase, s.trace, s.durable);
    assert s.trace[..s.durable][..s.durable] == s.trace[..s.durable];
  }

  lemma {:induction false} LoadHeadStep(g: Geometry, boot: Disk, s: State, i: nat)
    requires Inv(g, boot, s) && Enabled(g, s, LoadHead(i))
    ensures Inv(g, boot, s.(lh := GetHead(s.bufs[i].data), phase := Replaying(0)))
  {
    BreadInCommit(g, s.bufs, s.threads, [], s.disk, Replay(boot, s.trace), i);
    LoadHeadDisk(g, boot, s.disk, s.lh, s.trace, s.durable);
  }

  lemma {:induction false} OpStep(g: Geometry, boot: Disk, s: State, a: Action)
    requires Inv(g, boot, s) && Enabled(g, s, a) && (a.BeginOp? || a.LogWrite? || a.EndOp?)
    ensures Inv(g, boot, Do(g, s, a))
  {
    hide CacheInv, DiskOk;
    match a {
      case BeginOp(t) => BeginOpStep(g, boot, s, t);
      case LogWrite(t, i) =>
        LogWriteHistory(g, boot, s, t, i);
        LogWriteBuffers(g, boot, s, t, i);
      case EndOp(t) => EndOpStep(g, boot, s, t);
    }
  }

  predicate BufferAction(a: Action) {
    a.BgetHit? || a.BgetMiss? || a.Acquire? || a.ReadBlock? || a.Unlock? || a.Unref? || a.Modify?
  }

  lemma {:induction false} BufferStep(g: Geometry, boot: Disk, s: State, a: Action)
    requires Inv(g, boot, s) && Enabled(g, s, a) && BufferAction(a)
    ensures Inv(g, boot, Do(g, s, a))
  {
    hide Inv;
    match a {
      case BgetHit(t, i, b) => HitStep(g, boot, s, t, i);
      case BgetMiss(t, i, b) => MissStep(g, boot, s, t, i, b);
      case Acquire(t, i) => AcquireStep(g, boot, s, t, i);
      case ReadBlock(t, i) => ReadStep(g, boot, s, i);
      case Unlock(t, i) => UnlockStep(g, boot, s, t, i);
      case Unref(t, i) => UnrefStep(g, boot, s, t, i);
      case Modify(t, i, data) => ModifyStep(g, boot, s, t, i, data);
    }
  }

  lemma {:induction false} CommitStep(g: Geometry, boot: Disk, s: State, a: Action)
    requires Inv(g, boot, s) && Enabled(g, s, a)
    requires a.CopyToLog? || a.CommitHead? || a.SkipCommit? || a.InstallBlock? || a.UnpinBlock? || a.FinishCommit?
    ensures Inv(g, boot, Do(g, s, a))
  {
    hide Inv;
    match a {
      case CopyToLog(i, j) => CopyToLogStep(g, boot, s, i, j);
      case CommitHead(i) => CommitHeadStep(g, boot, s, i);
      case SkipCommit => SkipStep(g, boot, s);
      case InstallBlock(i, j) => InstallStep(g, boot, s, i, j);
      case UnpinBlock(j) => UnpinStep(g, boot, s, j);
      case FinishCommit => FinishStep(g, boot, s);
    }
  }

  lemma {:induction false} RecoveryStep(g: Geometry, boot: Disk, s: State, a: Action)
    requires Inv(g, boot, s) && Enabled(g, s, a) && (a.StartErase? || a.EraseHead? || a.Crash? || a.LoadHead?)
    ensures Inv(g, boot, Do(g, s, a))
  {
    hide Inv;
    match a {
      case StartErase => StartEraseStep(g, boot, s);
      case EraseHead(i) => EraseStep(g, boot, s, i);
      case Crash(t) => CrashStep(g, boot, s, t);
      case LoadHead(i) => LoadHeadStep(g, boot, s, i);
    }
  }

  /** Every step keeps the invariant. */
  lemma {:induction false} StepKeepsInv(g: Geometry, boot: Disk, s: State, a: Action)
    requires Inv(g, boot, s) && Enabled(g, s, a)
    ensures Inv(g, boot, Do(g, s, a))
  {
    hide Inv;
    if BufferAction(a) {
      BufferStep(g, boot, s, a);
    } else if a.BeginOp? || a.LogWrite? || a.EndOp? {
      OpStep(g, boot, s, a);
    } else if a.StartErase? || a.EraseHead? || a.Crash? || a.LoadHead? {
      RecoveryStep(g, boot, s, a);
    } else {
      CommitStep(g, boot, s, a);
    }
  }

  lemma {:induction false} InitInv(g: Geometry, boot: Disk, s: State)
    requires Init(g, boot, s)
    ensures Inv(g, boot, s)
  {
    FreshCache(g, s.bufs, s.threads, s.disk, Replay(boot, s.trace));
  }

  lemma {:induction false} RunKeepsInv(g: Geometry, boot: Disk, s: State, acts: seq<Action>, s': State)
    requires Inv(g, boot, s) && Run(g, s, acts, s')
    ensures Inv(g, boot, s')
    decreases |acts|
  {
    hide Inv;
    if acts != [] {
      StepKeepsInv(g, boot, s, acts[0]);
      RunKeepsInv(g, boot, Do(g, s, acts[0]), acts[1..], s');
    }
  }

  // ----- main results -----

  lemma {:induction false} InvRecovers(g: Geometry, boot: Disk, s: State)
    requires Inv(g, boot, s)
    ensures s.durable <= |s.trace| && Bracketed(g, s.trace[..s.durable]) && Open(s.trace[..s.durable]) == {}
    ensures GoodLog(g, s.disk) && SameHome(g, Recovered(g, s.disk), Replay(boot, s.trace[..s.durable]))
  {
    hide CacheInv;
    RecoverySound(g, s.disk, Replay(boot, s.trace[..s.durable]));
  }

  /** Crash atomicity for every run: whatever instant power is lost, recovery
      yields the result of a prefix of the history in which every operation that
      began has ended. No operation is ever split. */
  lemma {:induction false} CrashSafety(g: Geometry, boot: Disk, s0: State, acts: seq<Action>, s: State)
    requires Init(g, boot, s0) && Run(g, s0, acts, s)
    ensures s.durable <= |s.trace| && Enabled(g, s, Crash(s.committer))
    ensures Bracketed(g, s.trace[..s.durable]) && Open(s.trace[..s.durable]) == {}
    ensures GoodLog(g, s.disk)
    ensures SameHome(g, Recovered(g, s.disk), Replay(boot, s.trace[..s.durable]))
  {
    InitInv(g, boot, s0);
    RunKeepsInv(g, boot, s0, acts, s);
    InvRecovers(g, boot, s);
  }

  lemma {:induction false} DurableStep(g: Geometry, s: State, a: Action)
    requires s.durable <= |s.trace| && Enabled(g, s, a)
    ensures var s' := Do(g, s, a); s'.durable <= |s'.trace| && s.trace[..s.durable] <= s'.trace[..s'.durable]
  {
    var s' := Do(g, s, a);
    if a.Crash? {
      assert s'.trace[..s'.durable] == s.trace[..s.durable];
    } else {
      assert s.trace <= s'.trace && s.durable <= s'.durable;
    }
  }

  lemma {:induction false} DurableGrows(g: Geometry, boot: Disk, s: State, acts: seq<Action>, s': State)
    requires Inv(g, boot, s) && Run(g, s, acts, s')
    ensures Inv(g, boot, s') && s.durable <= |s.trace| && s'.durable <= |s'.trace|
    ensures s.trace[..s.durable] <= s'.trace[..s'.durable]
    decreases |acts|
  {
    if acts != [] {
      StepKeepsInv(g, boot, s, acts[0]);
      DurableStep(g, s, acts[0]);
      DurableGrows(g, boot, Do(g, s, acts[0]), acts[1..], s');
    }
  }

  lemma {:induction false} ReplayAfter(boot: Disk, a: seq<Event>, b: seq<Event>)
    ensures Replay(boot, a + b) == Replay(Replay(boot, a), b)
  {
    if b == [] {
      assert a + b == a;
    } else {
      var n := |b| - 1;
      assert (a + b)[..|a| + n] == a + b[..n];
      ReplayAfter(boot, a, b[..n]);
    }
  }

  lemma {:induction false} ReplayHome(g: Geometry, d: Disk, e: Disk, trace: seq<Event>)
    requires SameHome(g, d, e)
    ensures SameHome(g, Replay(d, trace), Replay(e, trace))
  {
    if trace != [] { ReplayHome(g, d, e, trace[..|trace| - 1]); }
  }

  /** What follows a point at which no operation is open is itself bracketed. */
  lemma {:induction false} BracketedAfter(g: Geometry, a: seq<Event>, b: seq<Event>)
    requires Bracketed(g, a + b) && Open(a) == {}
    ensures Bracketed(g, b) && Open(b) == Open(a + b)
  {
    if b == [] {
      assert a + b == a;
    } else {
      var n := |b| - 1;
      assert (a + b)[..|a| + n] == a + b[..n];
      BracketedAfter(g, a, b[..n]);
    }
  }

  lemma {:induction false} RecoveredLater(g: Geometry, boot: Disk, d: Disk, d': Disk, a: seq<Event>, b: seq<Event>)
    requires SameHome(g, d, Replay(boot, a)) && SameHome(g, d', Replay(boot, a + b))
    ensures SameHome(g, d', Replay(d, b))
  {
    ReplayAfter(boot, a, b);
    ReplayHome(g, Replay(boot, a), d, b);
  }

  /** What is once durable stays durable: whatever steps and crashes follow, a later
      recovery yields what recovery would yield now, changed by whole operations only. */
  lemma {:induction false} DurableForever(g: Geometry, boot: Disk, s: State, acts: seq<Action>, s': State)
    requires Inv(g, boot, s) && Run(g, s, acts, s')
    ensures s.durable <= s'.durable <= |s'.trace| && s.durable <= |s.trace|
    ensures s'.trace[..s.durable] == s.trace[..s.durable]
    ensures GoodLog(g, s.disk) && GoodLog(g, s'.disk)
    ensures var later := s'.trace[s.durable..s'.durable];
      && Bracketed(g, later) && Open(later) == {}
      && SameHome(g, Recovered(g, s'.disk), Replay(Recovered(g, s.disk), later))
  {
    hide *;
    DurableGrows(g, boot, s, acts, s');
    InvRecovers(g, boot, s);
    InvRecovers(g, boot, s');
    var a, later := s.trace[..s.durable], s'.trace[s.durable..s'.durable];
    assert s'.trace[..s'.durable] == a + later;
    BracketedAfter(g, a, later);
    RecoveredLater(g, boot, Recovered(g, s.disk), Recovered(g, s'.disk), a, later);
  }

  /** When the commit that end_op runs returns, that operation and everything
      before it is durable, and no operation is in progress. */
  lemma {:induction false} EndOpDurable(g: Geometry, boot: Disk, s0: State, acts: seq<Action>, s: State)
    requires Init(g, boot, s0) && Run(g, s0, acts, s) && s.phase.Finishing?
    ensures s.outstanding == 0 && Open(s.trace) == {}
    ensures s.durable == |s.trace| > 0 && s.trace[s.durable - 1] == End(s.committer)
    ensures SameHome(g, s.disk, Replay(boot, s.trace))
  {
    hide CacheInv;
    InitInv(g, boot, s0);
    RunKeepsInv(g, boot, s0, acts, s);
    assert s.trace[..s.durable] == s.trace;
  }

  /** With no operation open and no commit under way, everything is durable. */
  predicate Settled(s: State) { s.phase.Running? && s.outstanding == 0 ==> s.durable == |s.trace| }

  lemma {:induction false} StepSettles(g: Geometry, boot: Disk, s: State, a: Action)
    requires Inv(g, boot, s) && Enabled(g, s, a) && Settled(s)
    ensures Settled(Do(g, s, a))
  {
    hide CacheInv, TraceOk;
  }

  lemma {:induction false} RunSettles(g: Geometry, boot: Disk, s: State, acts: seq<Action>, s': State)
    requires Inv(g, boot, s) && Run(g, s, acts, s') && Settled(s)
    ensures Settled(s')
    decreases |acts|
  {
    hide Inv, Enabled, Do;
    if acts != [] {
      StepKeepsInv(g, boot, s, acts[0]);
      StepSettles(g, boot, s, acts[0]);
      RunSettles(g, boot, Do(g, s, acts[0]), acts[1..], s');
    }
  }

  /** The last end_op commits: in every run, whenever no operation is open and no commit
      is under way, all operations are durable and recovery yields all of them. */
  lemma {:induction false} IdleIsDurable(g: Geometry, boot: Disk, s0: State, acts: seq<Action>, s: State)
    requires Init(g, boot, s0) && Run(g, s0, acts, s) && s.phase.Running? && s.outstanding == 0
    ensures s.durable == |s.trace| && Open(s.trace) == {}
    ensures GoodLog(g, s.disk) && SameHome(g, Recovered(g, s.disk), Replay(boot, s.trace))
  {
    InitInv(g, boot, s0);
    hide Inv, Recovered, Replay, Run, Bracketed;
    RunKeepsInv(g, boot, s0, acts, s);
    RunSettles(g, boot, s0, acts, s);
    InvRecovers(g, boot, s);
    assert s.trace[..s.durable] == s.trace;
  }

  /** Commits and operations never overlap. */
  lemma {:induction false} CommitAlone(g: Geometry, boot: Disk, s0: State, acts: seq<Action>, s: State)
    requires Init(g, boot, s0) && Run(g, s0, acts, s)
    ensures s.committing ==> s.outstanding == 0 && forall t :: 0 <= t < |s.threads| ==> !s.threads[t].inOp
    ensures s.outstanding == |InOp(s.threads)|
  {
    InitInv(g, boot, s0);
    RunKeepsInv(g, boot, s0, acts, s);
    assert forall t :: 0 <= t < |s.threads| && s.threads[t].inOp ==> t in InOp(s.threads);
  }

  /** After boot, a reader that holds a valid buffer nobody has left half-changed
      sees the latest logged write of that block. */
  lemma {:induction false} ReadsSeeLatest(g: Geometry, boot: Disk, s0: State, acts: seq<Action>, s: State, i: nat)
    requires Init(g, boot, s0) && Run(g, s0, acts, s)
    requires !s.phase.Booting? && !s.phase.Replaying?
    requires i < |s.bufs| && s.bufs[i].dev == ROOTDEV && s.bufs[i].valid && !s.bufs[i].dirty
      && Home(g, s.bufs[i].blockno)
    ensures s.bufs[i].blockno < |Replay(boot, s.trace)|
    ensures s.bufs[i].data == Replay(boot, s.trace)[s.bufs[i].blockno]
  {
    InitInv(g, boot, s0);
    RunKeepsInv(g, boot, s0, acts, s);
    UnpinnedOnDisk(g, boot, s, s.bufs[i].blockno);
    assert BufCurrent(s.bufs[i], Pinned(s.phase, s.lh), s.disk, Replay(boot, s.trace));
  }

  lemma {:induction false} UnpinnedOnDisk(g: Geometry, boot: Disk, s: State, b: nat)
    requires Inv(g, boot, s) && !s.phase.Booting? && !s.phase.Replaying? && Home(g, b)
    ensures b !in Pinned(s.phase, s.lh) ==> s.disk[b] == Replay(boot, s.trace)[b]
  {
    assert s.trace[..|s.trace|] == s.trace;
    if (s.phase.Installing? || s.phase.Unpinning?) && b in s.lh && b !in s.lh[s.phase.tail..] {
      var j :| 0 <= j < |s.lh| && s.lh[j] == b;
      assert s.lh[j] in s.lh[s.phase.tail..] || j < s.phase.tail;
    }
  }

  /** The reference count law, and its point: a logged block's buffer is never
      recycled before the block is installed. */
  lemma {:induction false} PinnedNeverRecycled(g: Geometry, boot: Disk, s0: State, acts: seq<Action>, s: State, i: nat)
    requires Init(g, boot, s0) && Run(g, s0, acts, s) && i < |s.bufs|
    ensures s.bufs[i].refcnt == Uses(s.threads, i) + Pins(s.bufs[i], Pinned(s.phase, s.lh))
    ensures (exists t, b :: Enabled(g, s, BgetMiss(t, i, b))) ==>
      s.bufs[i].dev != ROOTDEV || s.bufs[i].blockno !in Pinned(s.phase, s.lh)
    ensures forall b :: b in Pinned(s.phase, s.lh) ==>
      exists k: nat :: Caches(s.bufs, k, b) && s.bufs[k].valid && s.bufs[k].refcnt > 0
  {
    InitInv(g, boot, s0);
    RunKeepsInv(g, boot, s0, acts, s);
    forall b | b in Pinned(s.phase, s.lh)
      ensures exists k: nat :: Caches(s.bufs, k, b) && s.bufs[k].valid && s.bufs[k].refcnt > 0
    {
      var k: nat :| Caches(s.bufs, k, b) && s.bufs[k].valid;
      assert Pins(s.bufs[k], Pinned(s.phase, s.lh)) == 1;
    }
  }

  /** What makes the eviction order that of brelse alone: in every run, log_write pins
      a buffer that is referenced, and install_trans unpins one that stays so. */
  lemma {:induction false} PinsKeepRefs(g: Geometry, boot: Disk, s0: State, acts: seq<Action>, s: State, a: Action)
    requires Init(g, boot, s0) && Run(g, s0, acts, s) && Enabled(g, s, a)
    ensures a.LogWrite? ==> s.bufs[a.i].refcnt >= 1
    ensures a.UnpinBlock? ==> s.bufs[a.j].refcnt >= 2 && Do(g, s, a).bufs[a.j].refcnt >= 1
  {
    InitInv(g, boot, s0);
    RunKeepsInv(g, boot, s0, acts, s);
    if a.LogWrite? {
      UsesAtLeast(s.threads, a.t, a.i);
    } else if a.UnpinBlock? {
      var k := s.phase.tail;
      assert s.lh[k] == s.lh[k..][0];
      UsesAtLeast(s.threads, s.committer, a.j);
    }
  }

  // ----- buffers for the commit itself -----

  ghost function PinnedBufs(bufs: seq<Buf>, pinned: seq<U32>): (r: set<nat>) {
    set i: nat | i < |bufs| && Pins(bufs[i], pinned) == 1
  }

  /** Each logged block occupies exactly one buffer. */
  lemma {:induction false} PinnedBufsCount(g: Geometry, bufs: seq<Buf>, pinned: seq<U32>)
    requires BufsOk(g, bufs) && PinnedCached(bufs, pinned) && Distinct(pinned)
    ensures |PinnedBufs(bufs, pinned)| == |pinned|
  {
    if pinned == [] {
      assert PinnedBufs(bufs, pinned) == {};
    } else {
      var init, b := pinned[..|pinned| - 1], pinned[|pinned| - 1];
      assert pinned == init + [b];
      forall x | x in init ensures exists k: nat :: Caches(bufs, k, x) && bufs[k].valid {
        assert x in pinned;
      }
      PinnedBufsCount(g, bufs, init);
      assert b in pinned;
      var k: nat :| Caches(bufs, k, b) && bufs[k].valid;
      OneMorePinned(g, bufs, init, b, k);
    }
  }

  lemma {:induction false} OneMorePinned(g: Geometry, bufs: seq<Buf>, pinned: seq<U32>, b: U32, k: nat)
    requires BufsOk(g, bufs) && Caches(bufs, k, b) && b !in pinned
    ensures PinnedBufs(bufs, pinned + [b]) == PinnedBufs(bufs, pinned) + {k}
    ensures k !in PinnedBufs(bufs, pinned)
  {
  }

  ghost function Below(n: nat): (r: set<nat>)
    ensures |r| == n && forall i: nat :: i in r <==> i < n
  {
    if n == 0 then {} else Below(n - 1) + {n - 1}
  }

  /** write_log needs a buffer for the log block beside the pinned ones. With
      nobody else using the cache there is one if and only if fewer than NBUF
      blocks are logged; NBUF equals LOGSIZE, so a full log cannot be written. */
  lemma {:induction false} SpareBufferExact(g: Geometry, boot: Disk, s0: State, acts: seq<Action>, s: State)
    requires Init(g, boot, s0) && Run(g, s0, acts, s) && s.phase.LogBlocks?
    requires forall i: nat :: i < |s.bufs| ==> Uses(s.threads, i) == 0
    ensures (exists i: nat :: i < |s.bufs| && s.bufs[i].refcnt == 0) <==> |s.lh| < NBUF
  {
    InitInv(g, boot, s0);
    RunKeepsInv(g, boot, s0, acts, s);
    PinnedBufsCount(g, s.bufs, s.lh);
    SpareBuffer(s.bufs, s.threads, s.lh);
  }

  lemma {:induction false} SpareBuffer(bufs: seq<Buf>, threads: seq<Thread>, lh: seq<U32>)
    requires |bufs| == NBUF && RefsOk(bufs, threads, lh) && |PinnedBufs(bufs, lh)| == |lh|
    requires forall i: nat :: i < |bufs| ==> Uses(threads, i) == 0
    ensures (exists i: nat :: i < |bufs| && bufs[i].refcnt == 0) <==> |lh| < NBUF
  {
    var busy, spare := PinnedBufs(bufs, lh), Below(NBUF) - PinnedBufs(bufs, lh);
    assert |spare| == NBUF - |lh| by { assert busy <= Below(NBUF); }
    if |lh| < NBUF {
      var i :| i in spare;
      assert bufs[i].refcnt == 0;
    } else {
      forall i: nat | i < |bufs| ensures bufs[i].refcnt != 0 {
        assert i !in spare;
      }
    }
  }
}
