/** How each step of the log machine moves the disk against the history of operations. */
module LogDiskSteps {
  import opened Bytes
  import opened LogFormat
  import opened LogMachine
  import opened LogInvariant
  import Log

  // ----- appending to the history -----

  lemma {:induction false} Appended(trace: seq<Event>, e: Event, n: nat)
    requires n <= |trace|
    ensures (trace + [e])[..|trace|] == trace
    ensures (trace + [e])[..n] == trace[..n]
  {
  }

  lemma {:induction false} AppendOpen(trace: seq<Event>, e: Event)
    ensures Open(trace + [e]) ==
      match e case Begin(t) => Open(trace) + {t} case Write(_, _, _) => Open(trace) case End(t) => Open(trace) - {t}
  {
    Appended(trace, e, 0);
  }

  lemma {:induction false} AppendReplay(boot: Disk, trace: seq<Event>, e: Event)
    ensures Replay(boot, trace + [e]) ==
      if e.Write? && e.b < |boot| then Replay(boot, trace)[e.b := e.data] else Replay(boot, trace)
  {
    Appended(trace, e, 0);
  }

  lemma {:induction false} AppendTrace(g: Geometry, trace: seq<Event>, durable: nat, ops: set<nat>, e: Event,
      ops': set<nat>)
    requires TraceOk(g, trace, durable, ops)
    requires match e
      case Begin(t) => t !in ops && ops' == ops + {t}
      case Write(t, b, _) => t in ops && Home(g, b) && ops' == ops
      case End(t) => t in ops && ops' == ops - {t}
    ensures TraceOk(g, trace + [e], durable, ops')
  {
    Appended(trace, e, durable);
    AppendOpen(trace, e);
  }

  /** begin_op and end_op leave the disk's obligations as they are. */
  lemma {:induction false} MarkDisk(g: Geometry, boot: Disk, disk: Disk, lh: seq<U32>, trace: seq<Event>, durable: nat,
      e: Event)
    requires DiskOk(g, boot, disk, lh, Running, trace, durable) && !e.Write?
    ensures DiskOk(g, boot, disk, lh, Running, trace + [e], durable)
  {
    Appended(trace, e, durable);
    AppendReplay(boot, trace, e);
  }

  lemma {:induction false} StartCommitDisk(g: Geometry, boot: Disk, disk: Disk, lh: seq<U32>, trace: seq<Event>,
      durable: nat)
    requires DiskOk(g, boot, disk, lh, Running, trace, durable)
    ensures DiskOk(g, boot, disk, lh, LogBlocks(0), trace, durable)
  {
  }

  lemma {:induction false} LogWriteDisk(g: Geometry, boot: Disk, disk: Disk, lh: seq<U32>, trace: seq<Event>,
      durable: nat,
                                        t: nat, b: nat, data: Block)
    requires DiskOk(g, boot, disk, lh, Running, trace, durable)
    requires Home(g, b) && |lh| < LOGSIZE && |lh| < g.size - 1
    ensures DiskOk(g, boot, disk, Log.Absorb(lh, b), Running, trace + [Write(t, b, data)], durable)
  {
    Appended(trace, Write(t, b, data), durable);
    AppendReplay(boot, trace, Write(t, b, data));
    assert (lh + [b])[..|lh|] == lh;
  }

  lemma {:induction false} CopyToLogDisk(g: Geometry, boot: Disk, disk: Disk, lh: seq<U32>, k: nat, trace: seq<Event>,
      durable: nat)
    requires DiskOk(g, boot, disk, lh, LogBlocks(k), trace, durable) && k < |lh|
    ensures DiskOk(g, boot, disk[g.start + 1 + k := Replay(boot, trace)[lh[k]]], lh, LogBlocks(k + 1), trace, durable)
  {
    var cur := Replay(boot, trace);
    var disk': Disk := disk[g.start + 1 + k := cur[lh[k]]];
    assert forall b :: Home(g, b) ==> disk'[b] == disk[b];
    assert LogHolds(g, disk', [], Replay(boot, trace[..durable]));
    assert InLogArea(g, disk', lh, k + 1, cur);
  }

  /** The header write makes the whole history durable at once. */
  lemma {:induction false} CommitHeadDisk(g: Geometry, boot: Disk, disk: Disk, lh: seq<U32>, trace: seq<Event>,
      durable: nat, h: Block)
    requires DiskOk(g, boot, disk, lh, LogBlocks(|lh|), trace, durable)
    requires 0 <= HeadCount(h) <= LOGSIZE && GetHead(h) == lh
    ensures DiskOk(g, boot, disk[g.start := h], lh, Installing(0), trace, |trace|)
  {
    var cur := Replay(boot, trace);
    assert trace[..|trace|] == trace;
    var disk': Disk := disk[g.start := h];
    assert LogHolds(g, disk', lh, cur);
  }

  lemma {:induction false} SkipCommitDisk(g: Geometry, boot: Disk, disk: Disk, k: nat, trace: seq<Event>, durable: nat)
    requires DiskOk(g, boot, disk, [], LogBlocks(k), trace, durable)
    ensures DiskOk(g, boot, disk, [], Finishing, trace, |trace|)
  {
    assert trace[..|trace|] == trace;
    assert LogHolds(g, disk, [], Replay(boot, trace));
  }

  /** Installing block k, in commit or in recovery, keeps the log and completes block k. */
  lemma {:induction false} InstallKeepsLog(g: Geometry, disk: Disk, lh: seq<U32>, k: nat, target: Disk)
    requires GoodHead(g, lh) && GoodLog(g, disk) && GetHead(disk[g.start]) == lh && RecoversTo(g, disk, target)
      && k < |lh|
    ensures disk[g.start + 1 + k] == target[lh[k]]
    ensures RecoversTo(g, disk[lh[k] := target[lh[k]]], target)
    ensures GetHead(disk[lh[k] := target[lh[k]]][g.start]) == lh
    ensures InPlace(g, disk, lh, k, target) ==> InPlace(g, disk[lh[k] := target[lh[k]]], lh, k + 1, target)
  {
    var disk': Disk := disk[lh[k] := target[lh[k]]];
    assert Home(g, lh[k]);
    assert LogHolds(g, disk', lh, target);
  }

  /** Installing block k, in commit or in recovery, keeps the log and completes block k. */
  lemma {:induction false} InstallDisk(g: Geometry, boot: Disk, disk: Disk, lh: seq<U32>, phase: Phase,
      trace: seq<Event>, durable: nat)
    requires DiskOk(g, boot, disk, lh, phase, trace, durable) && (phase.Installing? || phase.Replaying?)
      && phase.tail < |lh|
    ensures disk[g.start + 1 + phase.tail] == Replay(boot, trace)[lh[phase.tail]]
    ensures DiskOk(g, boot, disk[lh[phase.tail] := disk[g.start + 1 + phase.tail]], lh,
                   if phase.Installing? then Unpinning(phase.tail) else Replaying(phase.tail + 1), trace, durable)
  {
    hide InPlace, LogHolds;
    var cur, k := Replay(boot, trace), phase.tail;
    assert trace[..durable] == trace;
    InstallKeepsLog(g, disk, lh, k, cur);
  }

  lemma {:induction false} UnpinDisk(g: Geometry, boot: Disk, disk: Disk, lh: seq<U32>, k: nat, trace: seq<Event>,
      durable: nat)
    requires DiskOk(g, boot, disk, lh, Unpinning(k), trace, durable)
    ensures disk[lh[k]] == Replay(boot, trace)[lh[k]]
    ensures DiskOk(g, boot, disk, lh, Installing(k + 1), trace, durable)
  {
  }

  lemma {:induction false} StartEraseDisk(g: Geometry, boot: Disk, disk: Disk, lh: seq<U32>, phase: Phase,
      trace: seq<Event>, durable: nat)
    requires DiskOk(g, boot, disk, lh, phase, trace, durable) && (phase.Installing? || phase.Replaying?)
      && phase.tail == |lh|
    ensures DiskOk(g, boot, disk, [], if phase.Installing? then Erasing else BootErasing, trace, durable)
  {
    var cur := Replay(boot, trace);
    assert trace[..|trace|] == trace;
    forall b | Home(g, b) ensures disk[b] == cur[b] {
      if b in lh {
        var j :| 0 <= j < |lh| && lh[j] == b;
      }
    }
  }

  lemma {:induction false} EraseDisk(g: Geometry, boot: Disk, disk: Disk, phase: Phase, trace: seq<Event>,
      durable: nat, h: Block)
    requires DiskOk(g, boot, disk, [], phase, trace, durable) && (phase.Erasing? || phase.BootErasing?)
    requires 0 <= HeadCount(h) <= LOGSIZE && GetHead(h) == []
    ensures DiskOk(g, boot, disk[g.start := h], [], if phase.Erasing? then Finishing else Running, trace, durable)
  {
    var cur := Replay(boot, trace);
    assert trace[..|trace|] == trace;
    var disk': Disk := disk[g.start := h];
    assert forall b :: Home(g, b) ==> disk'[b] == cur[b];
    assert LogHolds(g, disk', [], cur);
  }

  lemma {:induction false} FinishDisk(g: Geometry, boot: Disk, disk: Disk, trace: seq<Event>, durable: nat)
    requires DiskOk(g, boot, disk, [], Finishing, trace, durable)
    ensures DiskOk(g, boot, disk, [], Running, trace, durable)
  {
    assert trace[..|trace|] == trace;
  }

  lemma {:induction false} CrashDisk(g: Geometry, boot: Disk, disk: Disk, lh: seq<U32>, phase: Phase,
      trace: seq<Event>, durable: nat)
    requires DiskOk(g, boot, disk, lh, phase, trace, durable)
    ensures DiskOk(g, boot, disk, [], Booting, trace[..durable], durable)
  {
    assert trace[..durable][..durable] == trace[..durable];
  }

  lemma {:induction false} LoadHeadDisk(g: Geometry, boot: Disk, disk: Disk, lh: seq<U32>, trace: seq<Event>,
      durable: nat)
    requires DiskOk(g, boot, disk, lh, Booting, trace, durable)
    ensures DiskOk(g, boot, disk, GetHead(disk[g.start]), Replaying(0), trace, durable)
  {
  }
}
