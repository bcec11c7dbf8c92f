/** kernel/log.c as the code runs it: the in-memory log header, the loops of
    commit and of recovery, and the disk after every block write. */
module Log {
  import opened Bytes
  import opened LogFormat

  /** The log header after log_write of block b: absorbed if already listed. */
  function Absorb(lh: seq<U32>, b: U32): (r: seq<U32>)
  {
    if b in lh then lh else lh + [b]
  }

  /** begin_op's admission test. */
  predicate Admits(n: nat, outstanding: int) {
    n + (outstanding + 1) * MAXOPBLOCKS <= LOGSIZE
  }

  /** base after the first k listed blocks of src are copied into the log. */
  function Logged(g: Geometry, base: Disk, src: Disk, lh: seq<U32>, k: nat): (r: Disk)
    requires |base| == |src| == g.blocks && GoodHead(g, lh) && k <= |lh|
    ensures |r| == |base|
  {
    if k == 0 then base else Logged(g, base, src, lh, k - 1)[g.start + k := src[lh[k - 1]]]
  }

  lemma {:induction false} LoggedAt(g: Geometry, base: Disk, src: Disk, lh: seq<U32>, k: nat, b: nat)
    requires |base| == |src| == g.blocks && GoodHead(g, lh) && k <= |lh| && b < g.blocks
    ensures Logged(g, base, src, lh, k)[b] == if g.start < b <= g.start + k then src[lh[b - g.start - 1]] else base[b]
  {
    if k > 0 {
      LoggedAt(g, base, src, lh, k - 1, b);
    }
  }

  /** The cached copies agree with the medium except on the blocks listed in lh. */
  ghost predicate Coherent(d: Disk, cache: Disk, lh: seq<U32>) {
    |d| == |cache| && forall b {:trigger cache[b]} :: 0 <= b < |d| && b !in lh ==> cache[b] == d[b]
  }

  lemma {:induction false} CoherentLog(g: Geometry, d: Disk, cache: Disk, lh: seq<U32>)
    requires |d| == |cache| == g.blocks && GoodHead(g, lh) && Coherent(d, cache, lh)
    ensures forall b :: InLog(g, b) ==> cache[b] == d[b]
  {
    assert forall i :: 0 <= i < |lh| ==> Home(g, lh[i]);
  }

  lemma {:induction false} LoggedCoherent(g: Geometry, d: Disk, cache: Disk, lh: seq<U32>, k: nat)
    requires |d| == |cache| == g.blocks && GoodHead(g, lh) && Coherent(d, cache, lh) && k <= |lh|
    ensures Coherent(Logged(g, d, cache, lh, k), Logged(g, cache, cache, lh, k), lh)
  {
    if k > 0 {
      LoggedCoherent(g, d, cache, lh, k - 1);
    }
  }

  lemma {:induction false} InstalledCoherent(g: Geometry, d: Disk, cache: Disk, src: Disk, lh: seq<U32>, k: nat)
    requires |d| == |cache| == |src| == g.blocks && GoodHead(g, lh) && Coherent(d, cache, lh) && k <= |lh|
    ensures Coherent(Installed(g, d, src, lh, k), Installed(g, cache, src, lh, k), lh[k..])
  {
    if k > 0 {
      InstalledCoherent(g, d, cache, src, lh, k - 1);
      assert lh[k - 1..] == [lh[k - 1]] + lh[k..];
    }
  }

  /** Copying blocks into an uncommitted log does not change what recovery yields. */
  lemma {:induction false} LoggingIsInvisible(g: Geometry, d: Disk, cache: Disk, lh: seq<U32>, k: nat)
    requires GoodLog(g, d) && GetHead(d[g.start]) == []
    requires GoodHead(g, lh) && k <= |lh| && |cache| == |d|
    ensures RecoversTo(g, Logged(g, d, cache, lh, k), d)
  {
    LoggedAt(g, d, cache, lh, k, g.start);
    forall b | Home(g, b) ensures Logged(g, d, cache, lh, k)[b] == d[b] {
      LoggedAt(g, d, cache, lh, k, b);
    }
  }

  /** Writing the header is the commit point: recovery now yields the cached contents. */
  lemma {:induction false} HeaderCommits(g: Geometry, d: Disk, cache: Disk, lh: seq<U32>, h: Block)
    requires |d| == |cache| == g.blocks && GoodHead(g, lh) && Coherent(d, cache, lh)
    requires 0 <= HeadCount(h) <= LOGSIZE && GetHead(h) == lh
    ensures RecoversTo(g, Logged(g, d, cache, lh, |lh|)[g.start := h], cache)
  {
    var e: Disk := Logged(g, d, cache, lh, |lh|)[g.start := h];
    forall b | Home(g, b) ensures e[b] == d[b] {
      LoggedAt(g, d, cache, lh, |lh|, b);
    }
    forall j | 0 <= j < |lh| ensures e[g.start + 1 + j] == cache[lh[j]] {
      LoggedAt(g, d, cache, lh, |lh|, g.start + 1 + j);
    }
    assert LogHolds(g, e, lh, cache);
  }

  /** The disks that exist while recovery (or the install phase of commit) runs on d. */
  ghost predicate RecoveryPoint(g: Geometry, d: Disk, e: Disk)
    requires GoodLog(g, d)
  {
    var lh := GetHead(d[g.start]);
    e == Recovered(g, d) || exists k: nat :: k <= |lh| && e == Installed(g, d, d, lh, k)
  }

  /** Idempotence, at every point: a crash in the middle of installing leaves a
      disk that recovers to the same home contents. */
  lemma {:induction false} InstallingIsInvisible(g: Geometry, d: Disk, k: nat, target: Disk)
    requires RecoversTo(g, d, target) && k <= |GetHead(d[g.start])|
    ensures RecoversTo(g, Installed(g, d, d, GetHead(d[g.start]), k), target)
  {
    var lh := GetHead(d[g.start]);
    InstalledBlocks(g, d, d, lh, k);
    var e := Installed(g, d, d, lh, k);
    forall b | Home(g, b) && b !in lh ensures e[b] == target[b] {
      assert b !in lh[..k];
    }
    assert LogHolds(g, e, lh, target);
  }

  lemma {:induction false} ErasingIsInvisible(g: Geometry, d: Disk, h: Block, target: Disk)
    requires SameHome(g, d, target)
    ensures RecoversTo(g, d[g.start := PutHead(h, [])], target)
  {
    HeadRoundTrip(h, []);
  }

  lemma {:induction false} InstallComplete(g: Geometry, d: Disk, target: Disk)
    requires RecoversTo(g, d, target)
    ensures var lh := GetHead(d[g.start]); SameHome(g, Installed(g, d, d, lh, |lh|), target)
  {
    RecoverySound(g, d, target);
    var lh := GetHead(d[g.start]);
    assert forall b :: Home(g, b) ==> Installed(g, d, d, lh, |lh|)[b] == Recovered(g, d)[b];
  }

  lemma {:induction false} RecoveryPointSafe(g: Geometry, d: Disk, e: Disk, target: Disk)
    requires RecoversTo(g, d, target) && RecoveryPoint(g, d, e)
    ensures RecoversTo(g, e, target)
  {
    var lh := GetHead(d[g.start]);
    if e == Recovered(g, d) {
      InstallComplete(g, d, target);
      ErasingIsInvisible(g, Installed(g, d, d, lh, |lh|), d[g.start], target);
    } else {
      var k: nat :| k <= |lh| && e == Installed(g, d, d, lh, k);
      InstallingIsInvisible(g, d, k, target);
    }
  }

  /** A machine that keeps crashing during recovery: each disk is a point
      reached by recovery running on the one before. */
  ghost predicate CrashChain(g: Geometry, ds: seq<Disk>) {
    var n := |ds| - 1;
    n > 0 ==> CrashChain(g, ds[..n]) && GoodLog(g, ds[n - 1]) && RecoveryPoint(g, ds[n - 1], ds[n])
  }

  /** However often recovery is interrupted, the recovery that completes yields
      the home contents the first crash was going to recover to. */
  lemma {:induction false} RepeatedCrashes(g: Geometry, ds: seq<Disk>, target: Disk)
    requires |ds| > 0 && CrashChain(g, ds) && RecoversTo(g, ds[0], target)
    ensures RecoversTo(g, ds[|ds| - 1], target)
    ensures SameHome(g, Recovered(g, ds[|ds| - 1]), target)
  {
    var n := |ds| - 1;
    if n > 0 {
      RepeatedCrashes(g, ds[..n], target);
      RecoveryPointSafe(g, ds[n - 1], ds[n], target);
    }
    RecoverySound(g, ds[n], target);
  }

  lemma {:induction false} InstallNext(g: Geometry, d: Disk, cache: Disk, lh: seq<U32>, k: nat)
    requires |d| == |cache| == g.blocks && GoodHead(g, lh) && k < |lh|
    requires forall b :: InLog(g, b) ==> cache[b] == d[b]
    ensures lh[k] < g.blocks && g.start + k + 1 < g.blocks
    ensures Installed(g, cache, d, lh, k)[g.start + k + 1] == d[g.start + k + 1]
    ensures Installed(g, d, d, lh, k + 1) == Installed(g, d, d, lh, k)[lh[k] := d[g.start + k + 1]]
    ensures Installed(g, cache, d, lh, k + 1) == Installed(g, cache, d, lh, k)[lh[k] := d[g.start + k + 1]]
  {
    InstalledBlocks(g, cache, d, lh, k);
    assert InLog(g, g.start + k + 1);
  }

  class Log {
    const g: Geometry
    var lh: seq<U32>
    /** operations in progress; begin_op and end_op are steps of LogMachine */
    var outstanding: int
    /** the medium */
    var disk: Disk
    /** what bread returns for each block: the cached copy where there is one */
    var cache: Disk
    /** the medium after each block write, in order */
    ghost var writes: seq<Disk>

    /** log_write has pinned every block that differs from the medium. */
    ghost predicate Valid()
      reads this
    {
      && GoodLog(g, disk) && |cache| == |disk|
      && GoodHead(g, lh)
      && Coherent(disk, cache, lh)
    }

    ghost predicate Clean()
      reads this
    {
      Valid() && GetHead(disk[g.start]) == []
    }

    /** Power-on: memory is empty, nothing is known of the medium. */
    constructor (g: Geometry, disk: Disk)
      requires GoodLog(g, disk)
      ensures this.g == g && this.disk == disk == cache
      ensures lh == [] && outstanding == 0 && writes == [] && Valid()
    {
      this.g, this.disk, this.cache := g, disk, disk;
      lh, outstanding, writes := [], 0, [];
    }

    method Bwrite(b: nat, data: Block)
      requires b < |disk| == |cache|
      modifies `disk, `cache, `writes
      ensures disk == old(disk)[b := data] && cache == old(cache)[b := data]
      ensures writes == old(writes) + [disk]
    {
      disk := disk[b := data];
      cache := cache[b := data];
      writes := writes + [disk];
    }

    /** log_write of a buffer whose contents the caller has changed to data;
        false is a panic. The size checks come before absorption. */
    method LogWrite(b: U32, data: Block) returns (ok: bool)
      requires Valid() && Home(g, b)
      modifies `lh, `cache
      ensures ok <==> |old(lh)| < LOGSIZE && |old(lh)| < g.size - 1 && outstanding >= 1
      ensures ok ==> Valid() && lh == Absorb(old(lh), b) && cache == old(cache)[b := data]
      ensures !ok ==> lh == old(lh) && cache == old(cache)
    {
      if |lh| >= LOGSIZE || |lh| >= g.size - 1 {
        return false;
      }
      if outstanding < 1 {
        return false;
      }
      var i := 0;
      while i < |lh| && lh[i] != b
        invariant 0 <= i <= |lh|
        invariant b !in lh[..i]
      {
        i := i + 1;
      }
      if i == |lh| {
        assert lh[..i] == lh;
        lh := lh + [b];
      } else {
        lh := lh[i := b];
        assert lh == old(lh);
      }
      cache := cache[b := data];
      return true;
    }

    /** Copy the cached contents of the logged blocks into the log. */
    method WriteLog()
      requires |disk| == |cache| == g.blocks && GoodHead(g, lh)
      modifies `disk, `cache, `writes
      ensures disk == Logged(g, old(disk), old(cache), lh, |lh|)
      ensures cache == Logged(g, old(cache), old(cache), lh, |lh|)
      ensures |writes| == |old(writes)| + |lh| && old(writes) <= writes
      ensures forall i :: |old(writes)| <= i < |writes| ==>
        writes[i] == Logged(g, old(disk), old(cache), lh, i - |old(writes)| + 1)
    {
      var tail := 0;
      while tail < |lh|
        invariant 0 <= tail <= |lh|
        invariant disk == Logged(g, old(disk), old(cache), lh, tail)
        invariant cache == Logged(g, old(cache), old(cache), lh, tail)
        invariant |writes| == |old(writes)| + tail && old(writes) <= writes
        invariant forall i :: |old(writes)| <= i < |writes| ==>
          writes[i] == Logged(g, old(disk), old(cache), lh, i - |old(writes)| + 1)
      {
        LoggedAt(g, old(cache), old(cache), lh, tail, lh[tail]);
        Bwrite(g.start + tail + 1, cache[lh[tail]]);
        tail := tail + 1;
      }
    }

    /** Store the in-memory header in the header block. */
    method WriteHead()
      requires |disk| == |cache| == g.blocks && |lh| <= LOGSIZE
      modifies `disk, `cache, `writes
      ensures var h := PutHead(old(cache)[g.start], lh);
        disk == old(disk)[g.start := h] && cache == old(cache)[g.start := h]
      ensures writes == old(writes) + [disk]
    {
      var hb := PutU32(cache[g.start], 0, |lh|);
      var i := 0;
      while i < |lh|
        invariant 0 <= i <= |lh|
        invariant hb == PutEntries(PutU32(cache[g.start], 0, |lh|), lh, i)
      {
        hb := PutU32(hb, i + 1, lh[i]);
        i := i + 1;
      }
      Bwrite(g.start, hb);
    }

    /** Load the header block into memory. */
    method ReadHead()
      requires |disk| == |cache| == g.blocks && HeadCount(cache[g.start]) <= LOGSIZE
      modifies `lh
      ensures lh == GetHead(cache[g.start])
    {
      lh := [];
      var n := HeadCount(cache[g.start]);
      var i := 0;
      while i < n
        invariant 0 <= i <= if n < 0 then 0 else n
        invariant lh == GetHead(cache[g.start])[..i]
      {
        lh := lh + [GetU32(cache[g.start], i + 1)];
        i := i + 1;
      }
    }

    /** Copy every log block to its home location. */
    method InstallTrans()
      requires |disk| == |cache| == g.blocks && GoodHead(g, lh)
      requires forall b :: InLog(g, b) ==> cache[b] == disk[b]
      modifies `disk, `cache, `writes
      ensures disk == Installed(g, old(disk), old(disk), lh, |lh|)
      ensures cache == Installed(g, old(cache), old(disk), lh, |lh|)
      ensures |writes| == |old(writes)| + |lh| && old(writes) <= writes
      ensures forall i :: |old(writes)| <= i < |writes| ==>
        writes[i] == Installed(g, old(disk), old(disk), lh, i - |old(writes)| + 1)
    {
      assert disk == Installed(g, disk, disk, lh, 0) && cache == Installed(g, cache, disk, lh, 0);
      hide Installed, GoodHead;
      var tail := 0;
      while tail < |lh|
        invariant 0 <= tail <= |lh|
        invariant disk == Installed(g, old(disk), old(disk), lh, tail)
        invariant cache == Installed(g, old(cache), old(disk), lh, tail)
        invariant |writes| == |old(writes)| + tail && old(writes) <= writes
        invariant forall i :: |old(writes)| <= i < |writes| ==>
          writes[i] == Installed(g, old(disk), old(disk), lh, i - |old(writes)| + 1)
      {
        InstallNext(g, old(disk), old(cache), lh, tail);
        Bwrite(lh[tail], cache[g.start + tail + 1]);
        tail := tail + 1;
      }
    }

    /** Boot: whatever the crash left behind, the disk becomes what it recovers
        to, passing only through disks that recover to the same contents. */
    method RecoverFromLog()
      requires GoodLog(g, disk) && cache == disk
      modifies `lh, `disk, `cache, `writes
      ensures Clean() && lh == [] && cache == disk
      ensures disk == Recovered(g, old(disk))
      ensures old(writes) <= writes
      ensures forall i :: |old(writes)| <= i < |writes| ==> RecoveryPoint(g, old(disk), writes[i])
    {
      ReadHead();
      InstallTrans();
      InstalledBlocks(g, old(disk), old(disk), lh, |lh|);
      EraseTransaction(disk);
    }

    /** commit(): the first |lh| block writes leave a disk that recovers to the
        contents before the transaction, every later one a disk that recovers
        to the contents after it. */
    method Commit()
      requires Clean()
      modifies `lh, `disk, `cache, `writes
      ensures Clean() && lh == [] && SameHome(g, disk, old(cache)) && SameHome(g, cache, old(cache))
      ensures old(writes) <= writes
      ensures |writes| == |old(writes)| + if old(lh) == [] then 0 else 2 * |old(lh)| + 2
      ensures forall i :: |old(writes)| <= i < |old(writes)| + |old(lh)| ==> RecoversTo(g, writes[i], old(disk))
      ensures forall i :: |old(writes)| + |old(lh)| <= i < |writes| ==> RecoversTo(g, writes[i], old(cache))
    {
      hide Logged, LogHolds, PutHead, GetHead;
      if |lh| > 0 {
        ghost var n, w0 := |lh|, |writes|;
        WriteLog();
        LoggedWrites(g, old(disk), old(cache), lh, writes, w0);
        LoggedCoherent(g, old(disk), old(cache), lh, |lh|);
        HeadRoundTrip(cache[g.start], lh);
        HeaderCommits(g, old(disk), old(cache), lh, PutHead(cache[g.start], lh));
        WriteHead();
        FinishCommit(old(cache));
      }
    }

    /** The second half of commit, after the header is on disk. */
    method FinishCommit(ghost target: Disk)
      requires |cache| == |disk| == g.blocks && RecoversTo(g, disk, target)
      requires GetHead(disk[g.start]) == lh && Coherent(disk, cache, lh)
      modifies `lh, `disk, `cache, `writes
      ensures Clean() && lh == [] && SameHome(g, disk, target) && SameHome(g, cache, target)
      ensures old(writes) <= writes && |writes| == |old(writes)| + |old(lh)| + 1
      ensures forall i :: |old(writes)| <= i < |writes| ==> RecoversTo(g, writes[i], target)
    {
      hide Installed, LogHolds;
      CoherentLog(g, disk, cache, lh);
      InstallTrans();
      InstalledCoherent(g, old(disk), old(cache), old(disk), lh, |lh|);
      InstalledWrites(g, old(disk), target, lh, writes, |old(writes)|);
      InstallComplete(g, old(disk), target);
      EraseTransaction(target);
    }

    /** log.lh.n = 0 and write_head. */
    method EraseTransaction(ghost target: Disk)
      requires SameHome(g, disk, target) && cache == disk
      modifies `lh, `disk, `cache, `writes
      ensures Clean() && lh == [] && SameHome(g, disk, target) && cache == disk
      ensures writes == old(writes) + [disk] && RecoversTo(g, disk, target)
      ensures disk == old(disk)[g.start := PutHead(old(disk)[g.start], [])]
    {
      lh := [];
      ErasingIsInvisible(g, disk, cache[g.start], target);
      HeadRoundTrip(cache[g.start], []);
      WriteHead();
    }
  }

  lemma {:induction false} LoggedWrites(g: Geometry, d: Disk, cache: Disk, lh: seq<U32>, writes: seq<Disk>, w0: nat)
    requires GoodLog(g, d) && GetHead(d[g.start]) == [] && GoodHead(g, lh) && |cache| == |d|
    requires |writes| == w0 + |lh|
    requires forall i :: w0 <= i < |writes| ==> writes[i] == Logged(g, d, cache, lh, i - w0 + 1)
    ensures forall i :: w0 <= i < |writes| ==> RecoversTo(g, writes[i], d)
  {
    forall i | w0 <= i < |writes| ensures RecoversTo(g, writes[i], d) {
      LoggingIsInvisible(g, d, cache, lh, i - w0 + 1);
    }
  }

  lemma {:induction false} InstalledWrites(g: Geometry, d: Disk, target: Disk, lh: seq<U32>, writes: seq<Disk>, w0: nat)
    requires RecoversTo(g, d, target) && lh == GetHead(d[g.start])
    requires |writes| == w0 + |lh|
    requires forall i :: w0 <= i < |writes| ==> writes[i] == Installed(g, d, d, lh, i - w0 + 1)
    ensures forall i :: w0 <= i < |writes| ==> RecoversTo(g, writes[i], target)
  {
    forall i | w0 <= i < |writes| ensures RecoversTo(g, writes[i], target) {
      InstallingIsInvisible(g, d, i - w0 + 1, target);
    }
  }
}
