/** Commits and recoveries do not get stuck: with nobody else using a buffer and a spare
    one at hand, the committer alone can bring every commit and every recovery to its
    end. */
module LogProgress {
  import opened Bytes
  import opened LogFormat
  import opened LogMachine
  import opened LogInvariant
  import opened LogTheorems
  import opened LogFill

  /** Thread t, in no operation, holds the buffers H; no other thread uses a buffer. */
  ghost predicate Calm(s: State, t: nat, H: set<nat>) {
    && t < |s.threads| && s.threads[t] == Thread(false, None, H, None)
    && forall u :: 0 <= u < |s.threads| && u != t ==> Unused(s.threads[u])
  }

  predicate Unused(th: Thread) { th.waiting.None? && th.releasing.None? && th.held == {} }

  /** All but buffers and threads is the same, and the buffers in H are. */
  ghost predicate SameRest(s: State, s': State, H: set<nat>) {
    && s' == s.(bufs := s'.bufs, threads := s'.threads) && |s'.bufs| == |s.bufs|
    && forall j :: j in H && j < |s.bufs| ==> s'.bufs[j] == s.bufs[j]
  }

  /** A step of the commit, of recovery, or of thread t with a buffer. */
  predicate Own(a: Action, t: nat) {
    match a
    case BgetHit(t', _, _) => t' == t
    case BgetMiss(t', _, _) => t' == t
    case Acquire(t', _) => t' == t
    case ReadBlock(t', _) => t' == t
    case Unlock(t', _) => t' == t
    case Unref(t', _) => t' == t
    case _ => InCommit(a)
  }

  predicate InCommit(a: Action) {
    || a.CopyToLog? || a.CommitHead? || a.SkipCommit? || a.InstallBlock? || a.UnpinBlock? || a.StartErase?
    || a.EraseHead? || a.FinishCommit? || a.LoadHead?
  }

  ghost predicate OwnRun(g: Geometry, s: State, t: nat, acts: seq<Action>, s': State) {
    Run(g, s, acts, s') && forall k :: 0 <= k < |acts| ==> Own(acts[k], t)
  }

  lemma {:induction false} OwnCat(g: Geometry, s: State, t: nat, a: seq<Action>, s1: State, b: seq<Action>, s2: State)
    requires OwnRun(g, s, t, a, s1) && OwnRun(g, s1, t, b, s2)
    ensures OwnRun(g, s, t, a + b, s2)
  {
    hide Run, Own;
    RunCat(g, s, a, s1, b, s2);
  }

  lemma {:induction false} OwnOne(g: Geometry, s: State, t: nat, acts: seq<Action>, s1: State, a: Action)
    requires OwnRun(g, s, t, acts, s1) && Enabled(g, s1, a) && Own(a, t)
    ensures OwnRun(g, s, t, acts + [a], Do(g, s1, a))
  {
    hide Run, Own, Enabled, Do;
    RunOne(g, s, acts, s1, a);
  }

  lemma {:induction false} CalmUses(threads: seq<Thread>, t: nat, H: set<nat>, i: nat)
    requires t < |threads| && threads[t].waiting.None? && threads[t].releasing.None? && threads[t].held == H
    requires forall u :: 0 <= u < |threads| && u != t ==> Unused(threads[u])
    ensures Uses(threads, i) == if i in H then 1 else 0
  {
    var idle := threads[t := Thread(threads[t].inOp, None, {}, None)];
    NoUses(idle, i);
    UsesUpdate(idle, t, threads[t], i);
    assert idle[t := threads[t]] == threads;
  }

  lemma {:induction false} CalmOwners(g: Geometry, boot: Disk, s: State, t: nat, H: set<nat>, i: nat)
    requires Inv(g, boot, s) && Calm(s, t, H) && i < |s.bufs|
    ensures i in H <==> s.bufs[i].owner == Some(t)
    ensures i !in H ==> s.bufs[i].owner.None?
    ensures s.bufs[i].refcnt == (if i in H then 1 else 0) + Pins(s.bufs[i], Pinned(s.phase, s.lh))
  {
    CalmUses(s.threads, t, H, i);
    hide DiskOk, CacheOk, TraceOk;
  }

  lemma {:induction false} OneOutside(all: set<nat>, busy: set<nat>) returns (i: nat)
    requires |busy| < |all|
    ensures i in all && i !in busy
  {
    assert all == (all - busy) + (all * busy) && busy == (all * busy) + (busy - all);
    i :| i in all - busy;
  }

  /** There is a buffer that nobody holds and that is not pinned. */
  lemma {:induction false} Spare(g: Geometry, boot: Disk, s: State, t: nat, H: set<nat>) returns (i: nat)
    requires Inv(g, boot, s) && Calm(s, t, H) && Distinct(Pinned(s.phase, s.lh))
    requires |Pinned(s.phase, s.lh)| + |H| < NBUF
    ensures i < |s.bufs| && i !in H && s.bufs[i].refcnt == 0
  {
    var pinned := Pinned(s.phase, s.lh);
    PinnedBufsCount(g, s.bufs, pinned);
    hide DiskOk, CacheOk, TraceOk, RefsOk, DirtyOk, PinnedCached;
    assert |PinnedBufs(s.bufs, pinned) + H| <= |PinnedBufs(s.bufs, pinned)| + |H|;
    i := OneOutside(Below(NBUF), PinnedBufs(s.bufs, pinned) + H);
    CalmOwners(g, boot, s, t, H, i);
  }

  // ----- taking and releasing a buffer -----

  /** Thread t has taken buffer i with block b. */
  ghost predicate Took(g: Geometry, s: State, t: nat, H: set<nat>, b: nat, acts: seq<Action>, i: nat, s': State) {
    && OwnRun(g, s, t, acts, s') && SameRest(s, s', H) && i !in H && Calm(s', t, H + {i}) && HoldsBlock(s', t, i, b)
  }

  /** After bget: the thread waits for buffer i, which nobody has locked. */
  lemma {:induction false} LockAndRead(g: Geometry, s: State, t: nat, H: set<nat>, b: nat, s1: State, a: Action, i: nat)
      returns (acts: seq<Action>, s': State)
    requires Calm(s, t, H) && Enabled(g, s, a) && s1 == Do(g, s, a) && SameRest(s, s1, H) && i !in H && i < |s1.bufs|
    requires s1.threads == s.threads[t := s.threads[t].(waiting := Some(i))] && Caches(s1.bufs, i, b)
    requires s1.bufs[i].owner.None? && b < |s.disk|
    ensures Took(g, s, t, H, b, acts, i, s')
  {
    var s2 := AfterAcquire(s1, t, i);
    assert Enabled(g, s1, Acquire(t, i));
    assert s2.threads[t].held == H + {i};
    acts, s' := [a, Acquire(t, i)], s2;
    RunTwo(g, s, a, s1, Acquire(t, i), s2);
    if !s2.bufs[i].valid {
      var s3 := AfterRead(s2, i);
      assert Enabled(g, s2, ReadBlock(t, i));
      OwnOne(g, s, t, acts, s2, ReadBlock(t, i));
      acts, s' := acts + [ReadBlock(t, i)], s3;
    }
  }

  lemma {:induction false} RunTwo(g: Geometry, s: State, a: Action, s1: State, b: Action, s2: State)
    requires Enabled(g, s, a) && Do(g, s, a) == s1 && Enabled(g, s1, b) && Do(g, s1, b) == s2
    ensures Run(g, s, [a, b], s2)
  {
    hide Enabled, Do;
    assert Run(g, s, [], s);
    RunOne(g, s, [], s, a);
    RunOne(g, s, [a], s1, b);
    assert [] + [a] == [a] && [a] + [b] == [a, b];
  }

  /** Block b is not in a buffer the thread holds. */
  ghost predicate NotHeld(s: State, H: set<nat>, b: nat) {
    forall i: nat :: i in H ==> !Caches(s.bufs, i, b)
  }

  /** bread of a block that is cached. */
  lemma {:induction false} TakeCached(g: Geometry, boot: Disk, s: State, t: nat, H: set<nat>, b: nat, i: nat)
      returns (acts: seq<Action>, s': State)
    requires Inv(g, boot, s) && Calm(s, t, H) && b < g.blocks && Caches(s.bufs, i, b) && i !in H
    ensures Took(g, s, t, H, b, acts, i, s')
  {
    CalmOwners(g, boot, s, t, H, i);
    assert |s.disk| == g.blocks;
    hide Inv, Run;
    assert Enabled(g, s, BgetHit(t, i, b));
    acts, s' := LockAndRead(g, s, t, H, b, AfterHit(s, t, i), BgetHit(t, i, b), i);
  }

  lemma {:induction false} TakeOther(g: Geometry, boot: Disk, s: State, t: nat, H: set<nat>, b: nat)
      returns (acts: seq<Action>, i: nat, s': State)
    requires Inv(g, boot, s) && Calm(s, t, H) && b < g.blocks && Uncached(s.bufs, b)
    requires Distinct(Pinned(s.phase, s.lh)) && |Pinned(s.phase, s.lh)| + |H| < NBUF
    ensures Took(g, s, t, H, b, acts, i, s')
  {
    i := Spare(g, boot, s, t, H);
    CalmOwners(g, boot, s, t, H, i);
    assert |s.disk| == g.blocks;
    hide Inv, Run;
    assert Enabled(g, s, BgetMiss(t, i, b));
    acts, s' := LockAndRead(g, s, t, H, b, AfterMiss(s, t, i, b), BgetMiss(t, i, b), i);
  }

  lemma {:induction false} Take(g: Geometry, boot: Disk, s: State, t: nat, H: set<nat>, b: nat)
      returns (acts: seq<Action>, i: nat, s': State)
    requires Inv(g, boot, s) && Calm(s, t, H) && b < g.blocks && NotHeld(s, H, b)
    requires Distinct(Pinned(s.phase, s.lh))
    requires b in Pinned(s.phase, s.lh) || |Pinned(s.phase, s.lh)| + |H| < NBUF
    ensures Took(g, s, t, H, b, acts, i, s')
  {
    assert PinnedCached(s.bufs, Pinned(s.phase, s.lh));
    hide Inv, Took, Calm;
    if x: nat :| Caches(s.bufs, x, b) {
      i := x;
      acts, s' := TakeCached(g, boot, s, t, H, b, i);
    } else {
      acts, i, s' := TakeOther(g, boot, s, t, H, b);
    }
  }

  lemma {:induction false} NotDirty(g: Geometry, boot: Disk, s: State, t: nat, H: set<nat>, i: nat)
    requires Inv(g, boot, s) && Calm(s, t, H) && i in H
    ensures i < |s.bufs| && !s.bufs[i].dirty
  {
    hide DiskOk, CacheOk, TraceOk, RefsOk, PinnedCached;
  }

  /** brelse by a thread that is in no operation. */
  lemma {:induction false} Release(g: Geometry, boot: Disk, s: State, t: nat, H: set<nat>, i: nat)
      returns (acts: seq<Action>, s': State)
    requires Inv(g, boot, s) && Calm(s, t, H) && i in H
    ensures OwnRun(g, s, t, acts, s') && SameRest(s, s', H - {i}) && Calm(s', t, H - {i})
  {
    NotDirty(g, boot, s, t, H, i);
    var s1 := AfterUnlock(s, t, i);
    acts, s' := [Unlock(t, i), Unref(t, i)], AfterUnref(s1, t, i);
    assert Run(g, s, acts, s') by {
      hide Inv, Run;
      assert Enabled(g, s, Unlock(t, i)) && Enabled(g, s1, Unref(t, i));
      RunTwo(g, s, Unlock(t, i), s1, Unref(t, i), s');
    }
    hide Inv, Run, Enabled, Do;
  }

  // ----- one step of a commit or recovery -----

  /** The committer is at rest, and holds no buffer. */
  ghost predicate AtRest(g: Geometry, boot: Disk, s: State) { Inv(g, boot, s) && Calm(s, s.committer, {}) }

  /** From rest to rest, to the given phase. */
  ghost predicate Went(g: Geometry, boot: Disk, s: State, acts: seq<Action>, s': State, next: State) {
    && OwnRun(g, s, s.committer, acts, s') && AtRest(g, boot, s') && s'.committer == s.committer
    && s'.phase == next.phase && s'.lh == next.lh && s'.durable == next.durable && s'.trace == s.trace
  }

  /** Action a leads to the given phase, and changes neither threads nor history. */
  ghost predicate Leads(g: Geometry, s: State, a: Action, next: State) {
    && Enabled(g, s, a)
    && var s' := Do(g, s, a);
       && s'.threads == s.threads && s'.committer == s.committer && s'.trace == s.trace
       && s'.phase == next.phase && s'.lh == next.lh && s'.durable == next.durable
  }

  /** The committer takes a step that needs no buffer. */
  lemma {:induction false} WithNone(g: Geometry, boot: Disk, s: State, a: Action, next: State)
      returns (acts: seq<Action>, s': State)
    requires AtRest(g, boot, s) && Leads(g, s, a, next) && InCommit(a)
    ensures Went(g, boot, s, acts, s', next)
  {
    acts, s' := [a], Do(g, s, a);
    assert Run(g, s, [], s) && [] + [a] == [a];
    hide Inv, Enabled, Do, Run;
    StepKeepsInv(g, boot, s, a);
    OwnOne(g, s, s.committer, [], s, a);
  }

  /** It takes a step with one buffer in hand, and releases the buffer. */
  lemma {:induction false} WithOne(g: Geometry, boot: Disk, s: State, b: nat, acts: seq<Action>, i: nat, s1: State,
      a: Action, next: State) returns (all: seq<Action>, s': State)
    requires AtRest(g, boot, s) && Took(g, s, s.committer, {}, b, acts, i, s1) && Leads(g, s1, a, next) && InCommit(a)
    ensures Went(g, boot, s, all, s', next)
  {
    hide Inv, Run, Enabled, Do;
    var t, s2 := s.committer, Do(g, s1, a);
    RunKeepsInv(g, boot, s, acts, s1);
    StepKeepsInv(g, boot, s1, a);
    OwnOne(g, s, t, acts, s1, a);
    assert {} + {i} == {i} && {i} - {i} == {};
    var rel;
    rel, s' := Release(g, boot, s2, t, {i}, i);
    RunKeepsInv(g, boot, s2, rel, s');
    all := acts + [a] + rel;
    OwnCat(g, s, t, acts + [a], s2, rel, s');
  }

  lemma {:induction false} ReleaseTwo(g: Geometry, boot: Disk, s: State, t: nat, i: nat, j: nat)
      returns (acts: seq<Action>, s': State)
    requires Inv(g, boot, s) && Calm(s, t, {i} + {j}) && i != j
    ensures OwnRun(g, s, t, acts, s') && SameRest(s, s', {}) && Calm(s', t, {}) && Inv(g, boot, s')
  {
    hide Inv, Run;
    assert {i} + {j} - {j} == {i} && {i} - {i} == {};
    var a1, s1 := Release(g, boot, s, t, {i} + {j}, j);
    RunKeepsInv(g, boot, s, a1, s1);
    var a2;
    a2, s' := Release(g, boot, s1, t, {i}, i);
    RunKeepsInv(g, boot, s1, a2, s');
    acts := a1 + a2;
    OwnCat(g, s, t, a1, s1, a2, s');
  }

  /** It takes a step with two buffers in hand, and releases both. */
  lemma {:induction false} WithTwo(g: Geometry, boot: Disk, s: State, acts: seq<Action>, i: nat, j: nat, s1: State,
      a: Action, next: State) returns (all: seq<Action>, s': State)
    requires AtRest(g, boot, s) && OwnRun(g, s, s.committer, acts, s1) && SameRest(s, s1, {}) && InCommit(a)
    requires Calm(s1, s.committer, {i} + {j}) && i != j && Leads(g, s1, a, next)
    ensures Went(g, boot, s, all, s', next)
  {
    hide Inv, Run, Enabled, Do;
    var t, s2 := s.committer, Do(g, s1, a);
    RunKeepsInv(g, boot, s, acts, s1);
    StepKeepsInv(g, boot, s1, a);
    OwnOne(g, s, t, acts, s1, a);
    var rel;
    rel, s' := ReleaseTwo(g, boot, s2, t, i, j);
    all := acts + [a] + rel;
    OwnCat(g, s, t, acts + [a], s2, rel, s');
  }

  // ----- the rounds -----

  lemma {:induction false} DistinctSuffix(lh: seq<U32>, k: nat)
    requires Distinct(lh) && k <= |lh|
    ensures Distinct(lh[k..])
  {
    if k < |lh| {
      var n := |lh| - 1;
      DistinctSuffix(lh[..n], k);
      assert lh[k..][..n - k] == lh[..n][k..];
      DistinctAt(lh, n);
    }
  }

  predicate HasTail(phase: Phase) {
    phase.LogBlocks? || phase.Installing? || phase.Unpinning? || phase.Replaying?
  }

  /** What the invariant says about the log in memory. */
  lemma {:induction false} LogShape(g: Geometry, boot: Disk, s: State)
    requires Inv(g, boot, s)
    ensures GoodHead(g, s.lh) && |s.disk| == g.blocks && Distinct(Pinned(s.phase, s.lh))
    ensures HasTail(s.phase) ==> s.phase.tail <= |s.lh|
    ensures s.phase.Unpinning? ==> s.phase.tail < |s.lh|
  {
    hide CacheInv, TraceOk, OpsOk;
    assert s.lh[|s.lh|..] == [];
    if s.phase.Installing? || s.phase.Unpinning? {
      DistinctSuffix(s.lh, s.phase.tail);
    }
  }

  lemma {:induction false} PinnedTail(phase: Phase, lh: seq<U32>)
    requires HasTail(phase) && phase.tail < |lh|
    ensures lh[phase.tail] in Pinned(phase, lh) || Pinned(phase, lh) == []
  {
    assert lh[phase.tail] == lh[phase.tail..][0];
  }

  lemma {:induction false} NothingHeld(s: State, b: nat)
    ensures NotHeld(s, {}, b)
  {
  }

  lemma {:induction false} OtherHeld(s: State, t: nat, i: nat, b: nat, b': nat)
    requires HoldsBlock(s, t, i, b) && b' != b
    ensures NotHeld(s, {i}, b')
  {
  }

  lemma {:induction false} StillHeld(s: State, s': State, t: nat, i: nat, j: nat, b: nat)
    requires HoldsBlock(s, t, i, b) && SameRest(s, s', {i}) && Calm(s', t, {i} + {j})
    ensures HoldsBlock(s', t, i, b)
  {
  }

  lemma {:induction false} OwnKeepsInv(g: Geometry, boot: Disk, s: State, t: nat, acts: seq<Action>, s': State)
    requires Inv(g, boot, s) && OwnRun(g, s, t, acts, s')
    ensures Inv(g, boot, s')
  {
    hide Inv, Run;
    RunKeepsInv(g, boot, s, acts, s');
  }

  /** bread of the next log block and of its home block. */
  lemma {:induction false} Blocks(g: Geometry, boot: Disk, s: State)
      returns (acts: seq<Action>, i: nat, j: nat, s': State)
    requires AtRest(g, boot, s) && |Pinned(s.phase, s.lh)| < NBUF && !s.phase.Unpinning?
    requires HasTail(s.phase) && s.phase.tail < |s.lh|
    ensures OwnRun(g, s, s.committer, acts, s') && SameRest(s, s', {})
    ensures Calm(s', s.committer, {i} + {j}) && i != j
    ensures HoldsBlock(s', s.committer, i, g.start + s.phase.tail + 1)
    ensures HoldsBlock(s', s.committer, j, s.lh[s.phase.tail])
  {
    LogShape(g, boot, s);
    hide Inv, OwnRun, Distinct, Pinned, Enabled, Do, Calm, HoldsBlock, NotHeld;
    PinnedTail(s.phase, s.lh);
    var t, b, home := s.committer, g.start + s.phase.tail + 1, s.lh[s.phase.tail];
    assert Home(g, home) && InLog(g, b);
    var a1, s1;
    NothingHeld(s, b);
    a1, i, s1 := Take(g, boot, s, t, {}, b);
    OwnKeepsInv(g, boot, s, t, a1, s1);
    assert {} + {i} == {i};
    OtherHeld(s1, t, i, b, home);
    var a2;
    a2, j, s' := Take(g, boot, s1, t, {i}, home);
    StillHeld(s1, s', t, i, j, b);
    acts := a1 + a2;
    OwnCat(g, s, t, a1, s1, a2, s');
  }

  lemma {:induction false} CopyLeads(g: Geometry, s: State, i: nat, j: nat)
    requires s.phase.LogBlocks? && s.phase.tail < |s.lh| && g.start + s.phase.tail + 1 < |s.disk|
    requires HoldsBlock(s, s.committer, i, g.start + s.phase.tail + 1)
    requires HoldsBlock(s, s.committer, j, s.lh[s.phase.tail])
    ensures Leads(g, s, CopyToLog(i, j), s.(phase := LogBlocks(s.phase.tail + 1)))
  {
  }

  lemma {:induction false} CopyRound(g: Geometry, boot: Disk, s: State) returns (acts: seq<Action>, s': State)
    requires AtRest(g, boot, s) && |Pinned(s.phase, s.lh)| < NBUF && s.phase.LogBlocks? && s.phase.tail < |s.lh|
    ensures Went(g, boot, s, acts, s', s.(phase := LogBlocks(s.phase.tail + 1)))
  {
    LogShape(g, boot, s);
    hide Inv, Run, Enabled, Do, Distinct, Calm, Leads;
    var a1, i, j, s1 := Blocks(g, boot, s);
    CopyLeads(g, s1, i, j);
    acts, s' := WithTwo(g, boot, s, a1, i, j, s1, CopyToLog(i, j), s.(phase := LogBlocks(s.phase.tail + 1)));
  }

  function AfterOneInstall(phase: Phase): (next: Phase)
    requires phase.Installing? || phase.Replaying?
  {
    if phase.Installing? then Unpinning(phase.tail) else Replaying(phase.tail + 1)
  }

  lemma {:induction false} InstallLeads(g: Geometry, s: State, i: nat, j: nat)
    requires (s.phase.Installing? || s.phase.Replaying?) && s.phase.tail < |s.lh| && s.lh[s.phase.tail] < |s.disk|
    requires HoldsBlock(s, s.committer, i, g.start + s.phase.tail + 1)
    requires HoldsBlock(s, s.committer, j, s.lh[s.phase.tail])
    ensures Leads(g, s, InstallBlock(i, j), s.(phase := AfterOneInstall(s.phase)))
  {
  }

  lemma {:induction false} InstallRound(g: Geometry, boot: Disk, s: State) returns (acts: seq<Action>, s': State)
    requires AtRest(g, boot, s) && |Pinned(s.phase, s.lh)| < NBUF && (s.phase.Installing? || s.phase.Replaying?)
    requires s.phase.tail < |s.lh|
    ensures Went(g, boot, s, acts, s', s.(phase := AfterOneInstall(s.phase)))
  {
    LogShape(g, boot, s);
    hide Inv, Run, Enabled, Do, Distinct, Calm, Leads, AfterOneInstall;
    var a1, i, j, s1 := Blocks(g, boot, s);
    InstallLeads(g, s1, i, j);
    acts, s' := WithTwo(g, boot, s, a1, i, j, s1, InstallBlock(i, j), s.(phase := AfterOneInstall(s.phase)));
  }

  lemma {:induction false} UnpinLeads(g: Geometry, s: State, i: nat)
    requires s.phase.Unpinning? && s.phase.tail < |s.lh| && HoldsBlock(s, s.committer, i, s.lh[s.phase.tail])
    ensures Leads(g, s, UnpinBlock(i), s.(phase := Installing(s.phase.tail + 1)))
  {
  }

  lemma {:induction false} UnpinRound(g: Geometry, boot: Disk, s: State) returns (acts: seq<Action>, s': State)
    requires AtRest(g, boot, s) && s.phase.Unpinning?
    ensures Went(g, boot, s, acts, s', s.(phase := Installing(s.phase.tail + 1)))
  {
    LogShape(g, boot, s);
    hide Inv, Run, Enabled, Do, Distinct;
    var b := s.lh[s.phase.tail];
    assert Home(g, b) && s.lh[s.phase.tail..][0] == b;
    var a1, i, s1 := Take(g, boot, s, s.committer, {}, b);
    UnpinLeads(g, s1, i);
    acts, s' := WithOne(g, boot, s, b, a1, i, s1, UnpinBlock(i), s.(phase := Installing(s.phase.tail + 1)));
  }

  lemma {:induction false} CommitLeads(g: Geometry, s: State, i: nat)
    requires s.phase == LogBlocks(|s.lh|) && 0 < |s.lh| <= LOGSIZE
    requires HoldsBlock(s, s.committer, i, g.start) && g.start < |s.disk|
    ensures Leads(g, s, CommitHead(i), s.(phase := Installing(0), durable := |s.trace|))
  {
  }

  lemma {:induction false} CommitRound(g: Geometry, boot: Disk, s: State) returns (acts: seq<Action>, s': State)
    requires AtRest(g, boot, s) && |Pinned(s.phase, s.lh)| < NBUF && s.phase == LogBlocks(|s.lh|) && s.lh != []
    ensures Went(g, boot, s, acts, s', s.(phase := Installing(0), durable := |s.trace|))
  {
    LogShape(g, boot, s);
    hide Inv, Run, Enabled, Do, Distinct;
    var a1, i, s1 := Take(g, boot, s, s.committer, {}, g.start);
    CommitLeads(g, s1, i);
    acts, s' := WithOne(g, boot, s, g.start, a1, i, s1, CommitHead(i),
      s.(phase := Installing(0), durable := |s.trace|));
  }

  lemma {:induction false} EraseLeads(g: Geometry, s: State, i: nat)
    requires (s.phase.Erasing? || s.phase.BootErasing?) && |s.lh| <= LOGSIZE
    requires HoldsBlock(s, s.committer, i, g.start) && g.start < |s.disk|
    ensures Leads(g, s, EraseHead(i), s.(phase := if s.phase.Erasing? then Finishing else Running))
  {
  }

  lemma {:induction false} EraseRound(g: Geometry, boot: Disk, s: State) returns (acts: seq<Action>, s': State)
    requires AtRest(g, boot, s) && (s.phase.Erasing? || s.phase.BootErasing?)
    ensures Went(g, boot, s, acts, s', s.(phase := if s.phase.Erasing? then Finishing else Running))
  {
    LogShape(g, boot, s);
    hide Inv, Run, Enabled, Do, Distinct;
    var a1, i, s1 := Take(g, boot, s, s.committer, {}, g.start);
    EraseLeads(g, s1, i);
    acts, s' := WithOne(g, boot, s, g.start, a1, i, s1, EraseHead(i),
      s.(phase := if s.phase.Erasing? then Finishing else Running));
  }

  /** A buffer with the header block has the header. */
  lemma {:induction false} HeaderRead(g: Geometry, boot: Disk, s: State, i: nat)
    requires Inv(g, boot, s) && s.phase.Booting? && HoldsBlock(s, s.committer, i, g.start)
    ensures s.bufs[i].data == s.disk[g.start] && GoodLog(g, s.disk)
  {
    hide TraceOk, LocksOk, RefsOk, BufsOk, PinnedCached;
    assert BufCurrent(s.bufs[i], [], s.disk, Replay(boot, s.trace));
  }

  lemma {:induction false} LoadLeads(g: Geometry, s: State, i: nat)
    requires s.phase.Booting? && HoldsBlock(s, s.committer, i, g.start) && GoodLog(g, s.disk)
    requires s.bufs[i].data == s.disk[g.start]
    ensures Leads(g, s, LoadHead(i), s.(phase := Replaying(0), lh := GetHead(s.disk[g.start])))
  {
  }

  lemma {:induction false} LoadRound(g: Geometry, boot: Disk, s: State) returns (acts: seq<Action>, s': State)
    requires AtRest(g, boot, s) && s.phase.Booting?
    ensures GoodLog(g, s.disk)
    ensures Went(g, boot, s, acts, s', s.(phase := Replaying(0), lh := GetHead(s.disk[g.start])))
  {
    LogShape(g, boot, s);
    hide Inv, Run, Enabled, Do, Distinct;
    var a1, i, s1 := Take(g, boot, s, s.committer, {}, g.start);
    RunKeepsInv(g, boot, s, a1, s1);
    HeaderRead(g, boot, s1, i);
    LoadLeads(g, s1, i);
    acts, s' := WithOne(g, boot, s, g.start, a1, i, s1, LoadHead(i),
      s.(phase := Replaying(0), lh := GetHead(s.disk[g.start])));
  }

  // ----- to the end -----

  function Rank(phase: Phase): (r: nat) {
    match phase
    case Running => 0
    case Finishing => 1
    case Erasing => 2
    case BootErasing => 2
    case Installing(_) => 3
    case Unpinning(_) => 3
    case LogBlocks(_) => 4
    case Replaying(_) => 4
    case Booting => 5
  }

  /** The rounds left in a phase. */
  function Rounds(phase: Phase, n: nat): (r: nat) {
    match phase
    case Installing(k) => if k <= n then 2 * (n - k) + 1 else 0
    case Unpinning(k) => if k <= n then 2 * (n - k) else 0
    case LogBlocks(k) => if k <= n then n - k else 0
    case Replaying(k) => if k <= n then n - k else 0
    case _ => 0
  }

  predicate Nearer(s: State, s': State) {
    || Rank(s'.phase) < Rank(s.phase)
    || (Rank(s'.phase) == Rank(s.phase) && Rounds(s'.phase, |s'.lh|) < Rounds(s.phase, |s.lh|))
  }

  /** A round brings the committer nearer to the end, and it still has a buffer to spare. */
  ghost predicate Advanced(g: Geometry, boot: Disk, s: State, acts: seq<Action>, s': State) {
    && OwnRun(g, s, s.committer, acts, s') && AtRest(g, boot, s') && s'.committer == s.committer
    && s'.trace == s.trace && Nearer(s, s')
    && |Pinned(s'.phase, s'.lh)| < NBUF && (s'.phase.Running? ==> s'.durable == |s'.trace|)
  }

  lemma {:induction false} Durable(g: Geometry, boot: Disk, s: State)
    requires Inv(g, boot, s) && !s.phase.Running? && !s.phase.LogBlocks?
    ensures s.durable == |s.trace|
  {
    hide CacheInv, TraceOk, OpsOk;
  }

  lemma {:induction false} StartLeads(g: Geometry, s: State)
    requires (s.phase.Installing? || s.phase.Replaying?) && s.phase.tail == |s.lh|
    ensures Leads(g, s, StartErase, Do(g, s, StartErase))
    ensures Do(g, s, StartErase) == s.(lh := [], phase := if s.phase.Installing? then Erasing else BootErasing)
  {
  }

  lemma {:induction false} SkipLeads(g: Geometry, s: State)
    requires s.phase.LogBlocks? && s.lh == []
    ensures Leads(g, s, SkipCommit, Do(g, s, SkipCommit))
    ensures Do(g, s, SkipCommit) == s.(phase := Finishing, durable := |s.trace|)
  {
  }

  lemma {:induction false} FinishLeads(g: Geometry, s: State)
    requires s.phase.Finishing?
    ensures Leads(g, s, FinishCommit, Do(g, s, FinishCommit))
    ensures Do(g, s, FinishCommit) == s.(committing := false, phase := Running)
  {
  }

  /** A round of write_log or install_trans. */
  lemma {:induction false} MoveRound(g: Geometry, boot: Disk, s: State) returns (acts: seq<Action>, s': State)
    requires AtRest(g, boot, s) && |Pinned(s.phase, s.lh)| < NBUF && HasTail(s.phase) && s.phase.tail < |s.lh|
    ensures Advanced(g, boot, s, acts, s')
  {
    hide AtRest, OwnRun, Inv, Enabled, Do;
    if s.phase.Unpinning? {
      acts, s' := UnpinRound(g, boot, s);
    } else if s.phase.LogBlocks? {
      acts, s' := CopyRound(g, boot, s);
    } else {
      acts, s' := InstallRound(g, boot, s);
    }
  }

  /** The end of write_log or install_trans. */
  lemma {:induction false} EndRound(g: Geometry, boot: Disk, s: State) returns (acts: seq<Action>, s': State)
    requires AtRest(g, boot, s) && |Pinned(s.phase, s.lh)| < NBUF && HasTail(s.phase) && s.phase.tail == |s.lh|
    requires !s.phase.Unpinning?
    ensures Advanced(g, boot, s, acts, s')
  {
    hide AtRest, OwnRun, Inv, Enabled, Do, Leads;
    if !s.phase.LogBlocks? {
      StartLeads(g, s);
      acts, s' := WithNone(g, boot, s, StartErase, Do(g, s, StartErase));
    } else if s.lh == [] {
      SkipLeads(g, s);
      acts, s' := WithNone(g, boot, s, SkipCommit, Do(g, s, SkipCommit));
    } else {
      acts, s' := CommitRound(g, boot, s);
      assert s.lh[0..] == s.lh;
    }
  }

  lemma {:induction false} OtherRound(g: Geometry, boot: Disk, s: State) returns (acts: seq<Action>, s': State)
    requires AtRest(g, boot, s) && !HasTail(s.phase) && !s.phase.Running?
    ensures Advanced(g, boot, s, acts, s')
  {
    Durable(g, boot, s);
    hide AtRest, OwnRun, Inv, Enabled, Do, Leads, GoodLog, GetHead;
    if s.phase.Booting? {
      acts, s' := LoadRound(g, boot, s);
    } else if s.phase.Finishing? {
      FinishLeads(g, s);
      acts, s' := WithNone(g, boot, s, FinishCommit, Do(g, s, FinishCommit));
    } else {
      acts, s' := EraseRound(g, boot, s);
    }
  }

  lemma {:induction false} Complete(g: Geometry, boot: Disk, s: State) returns (acts: seq<Action>, s': State)
    requires AtRest(g, boot, s) && |Pinned(s.phase, s.lh)| < NBUF && !s.phase.Running?
    ensures OwnRun(g, s, s.committer, acts, s') && s'.phase.Running? && s'.trace == s.trace && s'.durable == |s.trace|
    decreases Rank(s.phase), Rounds(s.phase, |s.lh|)
  {
    LogShape(g, boot, s);
    hide AtRest, OwnRun, Pinned, Distinct, GoodHead;
    if HasTail(s.phase) && s.phase.tail < |s.lh| {
      acts, s' := MoveRound(g, boot, s);
    } else if HasTail(s.phase) {
      acts, s' := EndRound(g, boot, s);
    } else {
      acts, s' := OtherRound(g, boot, s);
    }
    if !s'.phase.Running? {
      var s1, rest := s', [];
      rest, s' := Complete(g, boot, s1);
      OwnCat(g, s, s.committer, acts, s1, rest, s');
      acts := acts + rest;
    }
  }

  lemma {:induction false} NobodyIn(g: Geometry, boot: Disk, s: State)
    requires Inv(g, boot, s) && !s.phase.Running?
    ensures !s.threads[s.committer].inOp
  {
    hide CacheInv, TraceOk, DiskOk;
    assert s.committer !in InOp(s.threads);
  }

  /** Whenever a commit or a recovery is under way, no thread uses a buffer and not every
      buffer is pinned, the committer's own steps can bring it to its end: the log is open
      to operations again and all that happened before is durable. */
  lemma {:induction false} CommitCanFinish(g: Geometry, boot: Disk, s0: State, acts: seq<Action>, s: State)
      returns (rest: seq<Action>, s': State)
    requires Init(g, boot, s0) && Run(g, s0, acts, s) && !s.phase.Running?
    requires (forall t :: 0 <= t < |s.threads| ==> Unused(s.threads[t])) && |Pinned(s.phase, s.lh)| < NBUF
    ensures OwnRun(g, s, s.committer, rest, s') && s'.phase.Running? && s'.trace == s.trace && s'.durable == |s.trace|
  {
    InitInv(g, boot, s0);
    hide Run, Pinned;
    RunKeepsInv(g, boot, s0, acts, s);
    NobodyIn(g, boot, s);
    rest, s' := Complete(g, boot, s);
  }
}
