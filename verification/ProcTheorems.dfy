/** What every run of the process machine guarantees. */
module ProcTheorems {
  import opened Bytes
  import opened LogFormat
  import opened ProcMachine
  import opened ProcInvariant
  import opened ProcSteps
  import opened ProcLife

  lemma {:induction false} CpuStepKeeps(s: St, a: CpuStep)
    requires Inv(s) && CpuEnabled(s, a)
    ensures Inv(DoCpu(s, a))
  {
    match a
    case Dispatch(c, p) => DispatchKeeps(s, c, p);
    case Switch(p) => SwitchKeeps(s, p);
    case Unlock(c) => UnlockKeeps(s, c);
    case Resume(p) => ResumeKeeps(s, p);
    case Yield(p) => YieldKeeps(s, p);
  }

  lemma {:induction false} SyncStepKeeps(s: St, a: SyncStep)
    requires Inv(s) && SyncEnabled(s, a)
    ensures Inv(DoSync(s, a))
  {
    match a
    case Call(p, lk, job) => CallKeeps(s, p, lk, job);
    case Acquire(p) => AcquireKeeps(s, p);
    case GoToSleep(p) => GoToSleepKeeps(s, p);
    case SleepRelease(p) => SleepReleaseKeeps(s, p);
    case SleepMark(p) => SleepMarkKeeps(s, p);
    case Wake(p) => WakeKeeps(s, p);
    case TakeSleep(p) => TakeSleepKeeps(s, p);
    case FreeSleep(p) => FreeSleepKeeps(s, p);
    case Finish(p) => FinishKeeps(s, p);
    case Kill(p, i) => RousedKeeps(s, i, true);
  }

  lemma {:induction false} LifeStepKeeps(s: St, a: LifeStep)
    requires Inv(s) && LifeEnabled(s, a)
    ensures Inv(DoLife(s, a))
  {
    match a
    case Scan(p, give) => ScanKeeps(s, p, give);
    case Reparent(p) => ReparentKeeps(s, p);
    case Exit(p) => ExitKeeps(s, p);
    case ExitRelease(p) => ExitReleaseKeeps(s, p);
    case ForkAlloc(p, i) => ForkAllocKeeps(s, p, i);
    case ForkFail(p) => ForkFailKeeps(s, p);
    case ForkParent(p) => ForkParentKeeps(s, p);
    case ForkGo(p) => ForkGoKeeps(s, p);
  }

  lemma {:induction false} LogStepKeeps(s: St, a: LogStep)
    requires Inv(s) && LogEnabled(s, a)
    ensures Inv(DoLog(s, a))
  {
    match a
    case BeginOp(p) => BeginOpKeeps(s, p);
    case EndOp(p) => EndOpKeeps(s, p);
    case EraseLog(p) => LogLengthKeeps(s, p, 0);
    case CommitOver(p) => CommitOverKeeps(s, p);
    case CommitDone(p) => CommitDoneKeeps(s, p);
    case Append(p) => LogLengthKeeps(s, p, s.n + 1);
  }

  /** Every step of every thread and every scheduler keeps the invariant. */
  lemma {:induction false} StepKeeps(s: St, a: Action)
    requires Inv(s) && Enabled(s, a)
    ensures Inv(Do(s, a))
  {
    match a
    case Cpus(c) => CpuStepKeeps(s, c);
    case Syncs(y) => SyncStepKeeps(s, y);
    case Lives(f) => LifeStepKeeps(s, f);
    case Logs(g) => LogStepKeeps(s, g);
  }

  lemma {:induction false} RunKeeps(states: seq<St>, actions: seq<Action>, k: nat)
    requires Run(states, actions) && k < |states|
    ensures Inv(states[k])
  {
    if k == 0 {
      InitInv(states[0]);
    } else {
      RunKeeps(states, actions, k - 1);
      StepKeeps(states[k - 1], actions[k - 1]);
    }
  }

  // ----- no wakeup is lost -----

  lemma {:induction false} SleeperMustWait(s: St, p: nat, ch: Chan)
    requires Inv(s) && p < |s.pr| && s.pr[p].state == SLEEPING && s.pr[p].chan == Some(ch) && LockOf(ch) !in s.held
    ensures MustWait(s, ch) && (ch.Child? ==> ch.p == p)
  {
    assert Basic(s, p) && Waits(s, p);
  }

  /** Whenever wait_lock is free, a process that sleeps in wait has no zombie child,
      although exit calls wakeup before it sets ZOMBIE. */
  lemma {:induction false} WaiterHasNoZombie(states: seq<St>, actions: seq<Action>, k: nat, p: nat, child: nat)
    requires Run(states, actions) && k < |states| && p < |states[k].pr| && child < |states[k].pr|
    requires states[k].pr[p].state == SLEEPING && states[k].pr[p].chan.Some? && states[k].pr[p].chan.value.Child?
      && WaitLock !in states[k].held
    ensures !(states[k].pr[child].parent == Some(p) && states[k].pr[child].state == ZOMBIE)
  {
    var s := states[k];
    RunKeeps(states, actions, k);
    SleeperMustWait(s, p, s.pr[p].chan.value);
    assert !ZombieOf(s.pr, p, child);
  }

  /** Whenever its spinlock is free, a sleeplock on which a process sleeps is held. */
  lemma {:induction false} SleeperMeansLocked(states: seq<St>, actions: seq<Action>, k: nat, p: nat, l: nat)
    requires Run(states, actions) && k < |states| && p < |states[k].pr|
    requires states[k].pr[p].state == SLEEPING && states[k].pr[p].chan == Some(SleepChan(l))
      && SleepLk(l) !in states[k].held
    ensures l in states[k].locked
  {
    RunKeeps(states, actions, k);
    SleeperMustWait(states[k], p, SleepChan(l));
  }

  /** Whenever log.lock is free, a process that sleeps in begin_op has reason to: a
      commit is under way or its blocks might not fit. */
  lemma {:induction false} BeginOpSleeperMustWait(states: seq<St>, actions: seq<Action>, k: nat, p: nat)
    requires Run(states, actions) && k < |states| && p < |states[k].pr|
    requires states[k].pr[p].state == SLEEPING && states[k].pr[p].chan == Some(LogChan) && LogLock !in states[k].held
    ensures states[k].committer.Some? || states[k].n + (states[k].outstanding + 1) * MAXOPBLOCKS > LOGSIZE
  {
    RunKeeps(states, actions, k);
    SleeperMustWait(states[k], p, LogChan);
  }

  // ----- exit and wait -----

  /** The process whose slot this step of wait frees, if any. */
  function Reaped(s: St, a: Action): (r: Option<nat>) {
    if a.Lives? && a.f.Scan? && a.f.give && CanScan(s, a.f.p) && ZombieOf(s.pr, a.f.p, s.pr[a.f.p].pc.job.i)
    then Some(s.pr[a.f.p].pc.job.i) else None
  }

  /** wait frees a zombie only when no CPU is on its kernel stack or about to leave
      it, when it holds no lock, and when it has no children left. */
  lemma {:induction false} ReapedIsOff(states: seq<St>, actions: seq<Action>, k: nat, z: nat)
    requires Run(states, actions) && k < |actions| && Reaped(states[k], actions[k]) == Some(z)
    ensures var s := states[k];
      && z < |s.pr| && s.pr[z].state == ZOMBIE && s.pr[z].parent == Some(actions[k].f.p) && s.pr[z].pc == Dead
      && (forall c: nat :: c < |s.cpu| ==> s.cpu[c] != On(z) && s.cpu[c] != Back(z))
      && (forall lk :: lk in s.held ==> s.held[lk] != z)
      && (forall q: nat :: q < |s.pr| ==> s.pr[q].parent != Some(z))
      && states[k + 1].pr[z] == FREE_PROC
  {
    var s := states[k];
    RunKeeps(states, actions, k);
    assert Basic(s, z);
    forall c: nat | c < |s.cpu| ensures s.cpu[c] != On(z) && s.cpu[c] != Back(z) {
      assert CpuAt(s, c);
    }
    forall lk | lk in s.held ensures s.held[lk] != z {
      assert LockAt(s, lk);
    }
    forall q: nat | q < |s.pr| ensures s.pr[q].parent != Some(z) {
      assert Basic(s, q);
    }
    assert Enabled(s, actions[k]) && states[k + 1] == Do(s, actions[k]);
  }

  /** Every zombie has a parent that is neither free nor a zombie: it can be reaped. */
  lemma {:induction false} ZombieHasLiveParent(states: seq<St>, actions: seq<Action>, k: nat, z: nat)
    requires Run(states, actions) && k < |states| && z < |states[k].pr| && states[k].pr[z].state == ZOMBIE
    ensures var s := states[k];
      && s.pr[z].parent.Some? && s.pr[z].parent.value < |s.pr|
      && s.pr[s.pr[z].parent.value].state != UNUSED && s.pr[s.pr[z].parent.value].state != ZOMBIE
  {
    var s := states[k];
    RunKeeps(states, actions, k);
    assert Basic(s, z);
    var q := s.pr[z].parent.value;
    assert Basic(s, q);
  }

  // ----- CPUs -----

  predicate Uses(c: Cpu, p: nat) { c == On(p) || c == Back(p) }

  /** No two CPUs are ever on the same kernel stack, and a process is RUNNING only
      on a CPU. */
  lemma {:induction false} OneCpuPerStack(states: seq<St>, actions: seq<Action>, k: nat, p: nat, c: nat, d: nat)
    requires Run(states, actions) && k < |states| && p < |states[k].pr| && c < |states[k].cpu| && d < |states[k].cpu|
    ensures Uses(states[k].cpu[c], p) && Uses(states[k].cpu[d], p) ==> c == d
    ensures states[k].pr[p].state == RUNNING ==> exists e: nat :: e < |states[k].cpu| && states[k].cpu[e] == On(p)
  {
    var s := states[k];
    RunKeeps(states, actions, k);
    assert Basic(s, p) && CpuAt(s, c) && CpuAt(s, d);
    if s.pr[p].state == RUNNING {
      assert s.cpu[s.pr[p].place.c] == On(p);
    }
  }

  // ----- a zombie is freed once -----

  /** z is a zombie after a step that does not free it, and off its stack if it was. */
  predicate StillZombie(s: St, s': St, z: nat)
    requires z < |s.pr|
  {
    z < |s'.pr| && s'.pr[z].state == ZOMBIE && (s.pr[z].pc == Dead ==> s'.pr[z].pc == Dead)
  }

  lemma {:induction false} CpuZombie(s: St, a: CpuStep, z: nat)
    requires Inv(s) && CpuEnabled(s, a) && z < |s.pr| && s.pr[z].state == ZOMBIE
    ensures StillZombie(s, DoCpu(s, a), z)
  {
    assert Basic(s, z);
  }

  lemma {:induction false} SyncZombie(s: St, a: SyncStep, z: nat)
    requires Inv(s) && SyncEnabled(s, a) && z < |s.pr| && s.pr[z].state == ZOMBIE
    ensures StillZombie(s, DoSync(s, a), z)
  {
    assert Basic(s, z);
  }

  lemma {:induction false} LogZombie(s: St, a: LogStep, z: nat)
    requires Inv(s) && LogEnabled(s, a) && z < |s.pr| && s.pr[z].state == ZOMBIE
    ensures StillZombie(s, DoLog(s, a), z)
  {
    assert Basic(s, z);
  }

  lemma {:induction false} LifeZombie(s: St, a: LifeStep, z: nat)
    requires Inv(s) && LifeEnabled(s, a) && z < |s.pr| && s.pr[z].state == ZOMBIE && Reaped(s, Lives(a)) != Some(z)
    ensures StillZombie(s, DoLife(s, a), z)
  {
    hide Waits, PlaceAt, HeldAt, ParentAt;
    assert Basic(s, z);
    if a.ForkFail? || a.ForkParent? || a.ForkGo? {
      assert Basic(s, a.p) && Basic(s, s.pr[a.p].ctx.i);
    }
  }

  lemma {:induction false} StepZombie(s: St, a: Action, z: nat)
    requires Inv(s) && Enabled(s, a) && z < |s.pr| && s.pr[z].state == ZOMBIE && Reaped(s, a) != Some(z)
    ensures StillZombie(s, Do(s, a), z)
  {
    hide Inv, StillZombie, Reaped;
    match a
    case Cpus(c) => CpuZombie(s, c, z);
    case Syncs(y) => SyncZombie(s, y, z);
    case Lives(f) => LifeZombie(s, f, z);
    case Logs(g) => LogZombie(s, g, z);
  }

  /** In every run a zombie stays a zombie until its parent's wait frees it, also
      while a CPU is still on its kernel stack; one that has left its stack stays off. */
  lemma {:induction false} ZombieStays(states: seq<St>, actions: seq<Action>, k: nat, z: nat)
    requires Run(states, actions) && k < |actions| && z < |states[k].pr| && states[k].pr[z].state == ZOMBIE
    ensures z < |states[k + 1].pr|
    ensures if Reaped(states[k], actions[k]) == Some(z) then states[k + 1].pr[z] == FREE_PROC
      else StillZombie(states[k], states[k + 1], z)
  {
    assert Enabled(states[k], actions[k]) && states[k + 1] == Do(states[k], actions[k]);
    if Reaped(states[k], actions[k]) == Some(z) {
      ReapedIsOff(states, actions, k, z);
    } else {
      RunKeeps(states, actions, k);
      StepZombie(states[k], actions[k], z);
    }
  }

  /** In every run a free slot has no CPU on its kernel stack or about to leave it, and
      its process holds no lock and has no children: nothing is freed too early. */
  lemma {:induction false} FreeIsOff(states: seq<St>, actions: seq<Action>, k: nat, p: nat)
    requires Run(states, actions) && k < |states| && p < |states[k].pr| && states[k].pr[p].state == UNUSED
    ensures var s := states[k];
      && (forall c: nat :: c < |s.cpu| ==> !Uses(s.cpu[c], p))
      && (forall lk :: lk in s.held ==> s.held[lk] != p)
      && (forall q: nat :: q < |s.pr| ==> s.pr[q].parent != Some(p))
  {
    var s := states[k];
    RunKeeps(states, actions, k);
    assert Basic(s, p);
    forall c: nat | c < |s.cpu| ensures !Uses(s.cpu[c], p) {
      assert CpuAt(s, c);
    }
    forall lk | lk in s.held ensures s.held[lk] != p {
      assert LockAt(s, lk);
    }
    forall q: nat | q < |s.pr| ensures s.pr[q].parent != Some(p) {
      assert Basic(s, q);
    }
  }

  lemma {:induction false} CpuNoZombie(s: St, a: CpuStep, z: nat)
    requires CpuEnabled(s, a) && z < |s.pr| && s.pr[z].state != ZOMBIE
    ensures z < |DoCpu(s, a).pr| && DoCpu(s, a).pr[z].state != ZOMBIE
  {
  }

  lemma {:induction false} SyncNoZombie(s: St, a: SyncStep, z: nat)
    requires SyncEnabled(s, a) && z < |s.pr| && s.pr[z].state != ZOMBIE
    ensures z < |DoSync(s, a).pr| && DoSync(s, a).pr[z].state != ZOMBIE
  {
  }

  lemma {:induction false} LifeNoZombie(s: St, a: LifeStep, z: nat)
    requires LifeEnabled(s, a) && z < |s.pr| && s.pr[z].state != ZOMBIE && a != Exit(z)
    ensures z < |DoLife(s, a).pr| && DoLife(s, a).pr[z].state != ZOMBIE
  {
  }

  /** A process becomes a zombie by its own exit only. */
  lemma {:induction false} OnlyExit(s: St, a: Action, z: nat)
    requires Enabled(s, a) && z < |s.pr| && s.pr[z].state != ZOMBIE && a != Lives(Exit(z))
    ensures z < |Do(s, a).pr| && Do(s, a).pr[z].state != ZOMBIE
  {
    match a
    case Cpus(c) => CpuNoZombie(s, c, z);
    case Syncs(y) => SyncNoZombie(s, y, z);
    case Lives(f) => LifeNoZombie(s, f, z);
    case Logs(g) =>
  }

  lemma {:induction false} NotYetZombie(states: seq<St>, actions: seq<Action>, j: nat, k: nat, z: nat)
    requires Run(states, actions) && j <= k < |states| && z < |states[j].pr| && states[j].pr[z].state != ZOMBIE
    requires forall m :: j <= m < k ==> actions[m] != Lives(Exit(z))
    ensures z < |states[k].pr| && states[k].pr[z].state != ZOMBIE
  {
    if j < k {
      NotYetZombie(states, actions, j, k - 1, z);
      OnlyExit(states[k - 1], actions[k - 1], z);
    }
  }

  /** Between two times that wait frees slot z, a process in slot z has exited: no
      exit is reaped twice. */
  lemma {:induction false} ReapedOnce(states: seq<St>, actions: seq<Action>, j: nat, k: nat, z: nat)
    requires Run(states, actions) && j < k < |actions| && Reaped(states[j], actions[j]) == Some(z)
      && Reaped(states[k], actions[k]) == Some(z)
    ensures exists m :: j < m < k && actions[m] == Lives(Exit(z))
  {
    ReapedIsOff(states, actions, j, z);
    assert Enabled(states[j], actions[j]) && states[j + 1] == Do(states[j], actions[j]);
    if forall m :: j < m < k ==> actions[m] != Lives(Exit(z)) {
      NotYetZombie(states, actions, j + 1, k, z);
    }
  }

  // ----- sleeplocks -----

  /** This step is the holder's releasesleep of l. */
  predicate Releases(s: St, a: Action, l: nat) {
    a.Syncs? && a.y.FreeSleep? && a.y.p < |s.pr| && s.pr[a.y.p].pc.In? && s.pr[a.y.p].pc.lk == SleepLk(l)
  }

  /** This step is p's acquiresleep of l succeeding. */
  predicate Takes(s: St, a: Action, l: nat, p: nat) {
    a == Syncs(TakeSleep(p)) && p < |s.pr| && s.pr[p].pc.In? && s.pr[p].pc.lk == SleepLk(l)
  }

  lemma {:induction false} LockedStays(s: St, a: Action, l: nat)
    requires Inv(s) && Enabled(s, a) && l in s.locked
    ensures (l in Do(s, a).locked && Do(s, a).locked[l] == s.locked[l]) || (Releases(s, a, l) && a.y.p == s.locked[l])
  {
    if a.Syncs? && a.y.FreeSleep? {
      assert Waits(s, a.y.p);
    }
  }

  /** A sleeplock that p has taken is p's until p releases it: nobody else takes it. */
  lemma {:induction false} SleeplockExclusive(states: seq<St>, actions: seq<Action>, j: nat, k: nat, l: nat, p: nat)
    requires Run(states, actions) && j < k < |states| && Takes(states[j], actions[j], l, p)
    requires forall m :: j < m < k ==> !(Releases(states[m], actions[m], l) && actions[m].y.p == p)
    ensures l in states[k].locked && states[k].locked[l] == p
    ensures k < |actions| ==> forall q: nat :: !Takes(states[k], actions[k], l, q)
  {
    if k == j + 1 {
      assert Enabled(states[j], actions[j]) && states[k] == Do(states[j], actions[j]);
    } else {
      SleeplockExclusive(states, actions, j, k - 1, l, p);
      RunKeeps(states, actions, k - 1);
      LockedStays(states[k - 1], actions[k - 1], l);
    }
    if k < |actions| { assert Enabled(states[k], actions[k]); }
  }
}
