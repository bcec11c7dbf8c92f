/** What holds in every reachable state of the process machine. */
module ProcInvariant {
  import opened Bytes
  import opened ProcMachine

  // ----- one process by itself -----

  predicate Running(r: Proc) {
    r.state == RUNNING && r.place.OnCpu? && r.chan.None?
  }

  /** State, channel and place of a process go with where its thread is. */
  predicate Shape(r: Proc) {
    && (r.maker.Some? ==> r.pc.NoThread? && r.state == USED)
    && match r.pc
       case NoThread => r.place.Nowhere? && r.chan.None? && (r.state == UNUSED || (r.state == USED && r.maker.Some?))
         && (r.state == UNUSED ==> r.parent.None?)
       case In(_, job) => if job.XRel? then r.state == ZOMBIE && r.place.OnCpu? && r.chan.None? else Running(r)
       case SleepSw(_, ch) => r.state == SLEEPING && r.place.OnCpu? && r.chan == Some(ch)
       case Asleep(_, ch) => r.chan == Some(ch) &&
         (match r.place
          case OnCpu(_) => r.state == RUNNING
          case BackOn(_) => r.state == SLEEPING
          case Nowhere => r.state == SLEEPING || r.state == RUNNABLE)
       case YieldSw(_) => r.state == RUNNABLE && r.place.OnCpu? && r.chan.None?
       case Yielded(_) => r.chan.None? && r.state == (if r.place.OnCpu? then RUNNING else RUNNABLE)
       case Fresh => r.chan.None? && r.state == (if r.place.OnCpu? then RUNNING else RUNNABLE)
       case ExitSw => r.state == ZOMBIE && r.place.OnCpu? && r.chan.None?
       case Dead => r.state == ZOMBIE && !r.place.OnCpu? && r.chan.None?
       case _ => Running(r)
  }

  /** The job of a thread in or near a spinlock. */
  predicate HasJob(pc: Pc) { pc.Want? || pc.In? || pc.Waking? }

  predicate SleepPc(pc: Pc) { pc.SleepOwn? || pc.SleepSet? || pc.SleepSw? || pc.Asleep? }

  predicate Exiting(pc: Pc) {
    pc.ExitSw? || pc.Dead? || (HasJob(pc) && (pc.job.XRep? || pc.job.XLock? || pc.job.XRel?))
  }

  /** Where the thread goes on after a yield. */
  function Base(pc: Pc): (r: Pc) { if pc.YieldSw? || pc.Yielded? then pc.to else pc }

  /** fork does not call any of these functions, commit calls those of sleeplocks. */
  predicate CtxFits(pc: Pc, ctx: Ctx) {
    match ctx
    case Plain => true
    case Committing => pc.Out? || ((HasJob(pc) || SleepPc(pc)) && pc.lk.SleepLk?)
    case _ => pc.Out?
  }

  /** The pc and what is pending behind it go together. */
  predicate PcFits(r: Proc, p: nat) {
    && ((r.pc.YieldSw? || r.pc.Yielded?) ==> r.pc.to.Out? || r.pc.to.Want?)
    && JobsFit(Base(r.pc), p) && CtxFits(Base(r.pc), r.ctx)
  }

  /** Locks, jobs and channels go together. */
  predicate JobsFit(pc: Pc, p: nat) {
    && (HasJob(pc) ==> JobFits(pc.lk, pc.job))
    && (pc.Waking? || SleepPc(pc) ==> LockOf(pc.ch) == pc.lk)
    && (SleepPc(pc) && pc.ch.Child? ==> pc.ch.p == p)
    && (pc.Want? ==> !pc.job.XLock? && !pc.job.XRel? && (pc.job.WScan? || pc.job.XRep? ==> pc.job.i == 0))
    && (pc.Waking? ==> pc.job.XRep? || pc.job.XLock? || pc.job.Done?)
    && (Exiting(pc) || pc.NoThread? ==> p != INIT)
  }

  // ----- links between processes, CPUs and locks -----

  predicate PlaceAt(s: St, p: nat) {
    p < |s.pr| ==>
      && (s.pr[p].place.OnCpu? ==> s.pr[p].place.c < |s.cpu| && s.cpu[s.pr[p].place.c] == On(p))
      && (s.pr[p].place.BackOn? ==> s.pr[p].place.c < |s.cpu| && s.cpu[s.pr[p].place.c] == Back(p))
  }

  predicate CpuAt(s: St, c: nat) {
    c < |s.cpu| ==>
      && (s.cpu[c].On? ==> s.cpu[c].p < |s.pr| && s.pr[s.cpu[c].p].place == OnCpu(c))
      && (s.cpu[c].Back? ==> s.cpu[c].p < |s.pr| && s.pr[s.cpu[c].p].place == BackOn(c))
  }

  predicate HeldAt(s: St, p: nat) {
    p < |s.pr| && (s.pr[p].pc.In? || s.pr[p].pc.Waking? || s.pr[p].pc.SleepOwn?) ==>
      s.pr[p].pc.lk in s.held && s.held[s.pr[p].pc.lk] == p
  }

  predicate LockAt(s: St, lk: Lock) {
    lk in s.held ==> s.held[lk] < |s.pr| && Holds(s.pr[s.held[lk]].pc, lk)
  }

  function ForkOf(ctx: Ctx): (i: Option<nat>) {
    match ctx
    case Forking(i) => Some(i)
    case ForkRun(i) => Some(i)
    case _ => None
  }

  predicate MakerAt(s: St, p: nat) {
    p < |s.pr| ==>
      && (s.pr[p].maker.Some? ==> s.pr[p].maker.value < |s.pr| && ForkOf(s.pr[s.pr[p].maker.value].ctx) == Some(p))
      && (ForkOf(s.pr[p].ctx).Some? ==>
            && ForkOf(s.pr[p].ctx).value < |s.pr| && s.pr[ForkOf(s.pr[p].ctx).value].maker == Some(p)
            && (s.pr[p].ctx.ForkRun? ==> s.pr[s.pr[p].ctx.i].parent.Some?))
  }

  /** A process whose thread is here may have i as a child. */
  predicate MayHave(pc: Pc, i: nat) {
    && !pc.NoThread? && !pc.ExitSw? && !pc.Dead?
    && ((pc.In? || pc.Waking?) ==> !pc.job.XLock? && !pc.job.XRel? && (pc.job.XRep? ==> pc.job.i <= i))
  }

  /** Every process but init has a parent; parents are alive and have not handed
      their children over yet. */
  predicate ParentAt(s: St, p: nat) {
    p < |s.pr| ==>
      && (p != INIT && !s.pr[p].pc.NoThread? ==> s.pr[p].parent.Some?)
      && (s.pr[p].parent.Some? ==> s.pr[p].parent.value < |s.pr| && MayHave(s.pr[s.pr[p].parent.value].pc, p))
  }

  ghost predicate Links(s: St, p: nat) {
    PlaceAt(s, p) && HeldAt(s, p) && MakerAt(s, p) && ParentAt(s, p)
  }

  // ----- waiting -----

  /** Process k is a zombie child of q. */
  predicate ZombieOf(pr: seq<Proc>, q: nat, k: nat) {
    k < |pr| && pr[k].parent == Some(q) && pr[k].state == ZOMBIE
  }

  ghost predicate NoZombies(pr: seq<Proc>, q: nat) {
    forall k: nat {:trigger ZombieOf(pr, q, k)} :: !ZombieOf(pr, q, k)
  }

  /** The thread has decided to sleep on ch and has not been woken. */
  predicate Sleeps(r: Proc, ch: Chan) {
    SleepPc(r.pc) && r.pc.ch == ch && (r.pc.Asleep? ==> r.state == SLEEPING)
  }

  /** What a sleeper on ch waits for has not happened. */
  ghost predicate MustWait(s: St, ch: Chan) {
    match ch
    case Child(q) => NoZombies(s.pr, q)
    case SleepChan(l) => l in s.locked
    case LogChan => LogBusy(s)
  }

  /** The holder of the lock is in wakeup(ch) and has not come to p yet. */
  predicate WakeComing(s: St, p: nat, ch: Chan) {
    var lk := LockOf(ch);
    lk in s.held && s.held[lk] < |s.pr| && s.pr[s.held[lk]].pc.Waking? && s.pr[s.held[lk]].pc.ch == ch
      && s.pr[s.held[lk]].pc.j <= p
  }

  ghost predicate NoLostAt(s: St, p: nat) {
    p < |s.pr| && SleepPc(s.pr[p].pc) && Sleeps(s.pr[p], s.pr[p].pc.ch) ==>
      MustWait(s, s.pr[p].pc.ch) || WakeComing(s, p, s.pr[p].pc.ch)
  }

  /** wait has found no zombie among the processes it has looked at. */
  ghost predicate ScanAt(s: St, p: nat) {
    p < |s.pr| && s.pr[p].pc.In? && s.pr[p].pc.job.WScan? ==>
      forall k: nat {:trigger ZombieOf(s.pr, p, k)} :: k < s.pr[p].pc.job.i ==> !ZombieOf(s.pr, p, k)
  }

  /** exit has woken its parent by the time it becomes a zombie. */
  predicate AwakeAt(s: St, p: nat) {
    p < |s.pr| && (s.pr[p].pc.In? || s.pr[p].pc.Waking?) && s.pr[p].pc.job.XLock? && s.pr[p].parent.Some?
      && s.pr[p].parent.value < |s.pr| ==>
      var q := s.pr[p].parent.value;
      if s.pr[p].pc.Waking? then s.pr[p].pc.ch == Child(q) && (s.pr[p].pc.j > q ==> !Sleeps(s.pr[q], Child(q)))
      else !Sleeps(s.pr[q], Child(q))
  }

  predicate JobAt(s: St, p: nat) {
    p < |s.pr| && HasJob(Base(s.pr[p].pc)) && !s.pr[p].pc.Waking? ==>
      var pc := Base(s.pr[p].pc);
      && (pc.job.RSFree? && pc.lk.SleepLk? ==> pc.lk.l in s.locked && s.locked[pc.lk.l] == p)
      && (pc.job.CDone? ==> s.committer == Some(p))
  }

  predicate CommitAt(s: St, p: nat) {
    p < |s.pr| && s.pr[p].ctx.Committing? ==> s.committer == Some(p)
  }

  ghost predicate Waits(s: St, p: nat) {
    NoLostAt(s, p) && ScanAt(s, p) && AwakeAt(s, p) && JobAt(s, p) && CommitAt(s, p)
  }

  ghost predicate Basic(s: St, p: nat) {
    p < |s.pr| ==> Shape(s.pr[p]) && PcFits(s.pr[p], p) && Links(s, p)
  }

  /** Processes, CPUs and locks agree with each other. */
  ghost predicate Struct(s: St) {
    && |s.pr| > 0
    && (forall p: nat {:trigger Basic(s, p)} :: Basic(s, p))
    && (forall c: nat {:trigger CpuAt(s, c)} :: CpuAt(s, c))
    && (forall lk: Lock {:trigger LockAt(s, lk)} :: LockAt(s, lk))
  }

  /** Nobody sleeps who should have been woken. */
  ghost predicate Woken(s: St) {
    && (s.committer.Some? ==> s.outstanding == 0)
    && (forall p: nat {:trigger Waits(s, p)} :: Waits(s, p))
  }

  ghost predicate Inv(s: St) { Struct(s) && Woken(s) }

  lemma {:induction false} InitInv(s: St)
    requires Init(s)
    ensures Inv(s)
  {
    forall p: nat ensures Basic(s, p) && Waits(s, p) {
      assert p < |s.pr| ==>
        s.pr[p] == if p == 0 then Proc(RUNNABLE, None, None, Fresh, Nowhere, None, Plain, false) else FREE_PROC;
    }
    forall c: nat ensures CpuAt(s, c) {
    }
  }

  // ----- zombies -----

  /** Every zombie child was one before. */
  ghost predicate NoNewZombie(pr: seq<Proc>, pr': seq<Proc>) {
    forall q: nat, k: nat {:trigger ZombieOf(pr', q, k)} :: ZombieOf(pr', q, k) ==> ZombieOf(pr, q, k)
  }

  lemma {:induction false} ZombiesKept(pr: seq<Proc>, p: nat, r: Proc)
    requires p < |pr| && (r.state == ZOMBIE ==> pr[p].state == ZOMBIE && r.parent == pr[p].parent)
    ensures NoNewZombie(pr, pr[p := r])
  {
    var pr' := pr[p := r];
    forall q: nat, k: nat ensures ZombieOf(pr', q, k) ==> ZombieOf(pr, q, k) {
    }
  }

  lemma {:induction false} ZombiesKept2(pr: seq<Proc>, q: nat, t: Proc, p: nat, r: Proc)
    requires p < |pr| && q < |pr| && p != q
    requires (r.state == ZOMBIE ==> pr[p].state == ZOMBIE && r.parent == pr[p].parent)
      && (t.state == ZOMBIE ==> pr[q].state == ZOMBIE && t.parent == pr[q].parent)
    ensures NoNewZombie(pr, pr[q := t][p := r])
  {
    var pr' := pr[q := t][p := r];
    forall x: nat, k: nat ensures ZombieOf(pr', x, k) ==> ZombieOf(pr, x, k) {
    }
  }
}
