/** kernel/proc.c and kernel/sleeplock.c as interleaved steps of any number of
    CPUs and processes: scheduling, sleep and wakeup, exit, wait and reparent,
    fork, sleeplocks, and the waiting in begin_op (kernel/log.c). A step is what a
    thread does between two points at which another one can interfere: code that
    holds only one p->lock is one step, taken when that lock is free. */
module ProcMachine {
  import opened Bytes
  import opened LogFormat
  import Log

  datatype PState = UNUSED | USED | RUNNABLE | RUNNING | SLEEPING | ZOMBIE

  /** Channels: a process (in wait), a sleeplock, the log. */
  datatype Chan = Child(p: nat) | SleepChan(l: nat) | LogChan

  /** The spinlocks that guard them. */
  datatype Lock = WaitLock | SleepLk(l: nat) | LogLock

  function LockOf(c: Chan): (lk: Lock) {
    match c
    case Child(_) => WaitLock
    case SleepChan(l) => SleepLk(l)
    case LogChan => LogLock
  }

  /** What the holder of such a lock does next. */
  datatype Job =
    | WScan(i: nat, kids: bool) // wait: look at process i
    | XRep(i: nat)              // exit: reparent process i
    | XLock                     // exit: acquire p->lock, become a zombie
    | XRel                      // exit: zombie, p->lock held, release wait_lock
    | ASCheck                   // acquiresleep: locked?
    | RSFree                    // releasesleep: locked = 0
    | BOCheck                   // begin_op: may I start?
    | EODec                     // end_op: outstanding -= 1
    | CDone                     // end_op: the commit is over
    | Done                      // release the lock and return

  datatype Pc =
    | NoThread                            // an unused slot, or a child being made
    | Out                                 // code outside these functions
    | Want(lk: Lock, job: Job)            // about to acquire lk
    | In(lk: Lock, job: Job)              // holds lk
    | Waking(lk: Lock, ch: Chan, j: nat, job: Job) // holds lk, in wakeup(ch) at process j
    | SleepOwn(lk: Lock, ch: Chan)        // sleep: holds lk and its own p->lock
    | SleepSet(lk: Lock, ch: Chan)        // sleep: lk released
    | SleepSw(lk: Lock, ch: Chan)         // sleep: state is SLEEPING, not switched yet
    | Asleep(lk: Lock, ch: Chan)          // sleep: switched away, or just switched back
    | YieldSw(to: Pc)                     // yield: RUNNABLE, not switched yet
    | Yielded(to: Pc)                     // yield: switched away, or just switched back
    | Fresh                               // a fork child before forkret
    | ExitSw                              // exit: zombie, not switched yet
    | Dead                                // exit: switched away for good

  /** What the thread is in the middle of when it is outside these functions: nothing,
      fork with a child that has no parent yet, fork with a child that has one, commit. */
  datatype Ctx = Plain | Forking(i: nat) | ForkRun(i: nat) | Committing

  datatype Place = Nowhere | OnCpu(c: nat) | BackOn(c: nat)

  /** maker: for a child being made, who is making it. */
  datatype Proc = Proc(state: PState, chan: Option<Chan>, parent: Option<nat>, pc: Pc, place: Place,
      maker: Option<nat>, ctx: Ctx, killed: bool)

  /** In the scheduler; on the kernel stack of p; back in the scheduler from p with
      p->lock still held. */
  datatype Cpu = Idle | On(p: nat) | Back(p: nat)

  /** locked: the holder of each sleeplock. committer: who runs commit, if
      log.committing. n is log.lh.n. */
  datatype St = St(pr: seq<Proc>, cpu: seq<Cpu>, held: map<Lock, nat>, locked: map<nat, nat>,
                   committer: Option<nat>, outstanding: nat, n: nat)

  const INIT: nat := 0

  // ----- locks -----

  /** p->lock is held: by the thread of p or by the scheduler it came from or went to. */
  predicate OwnLocked(r: Proc) {
    r.place.BackOn? || r.pc.SleepOwn? || r.pc.SleepSet? || r.pc.SleepSw? || r.pc.YieldSw? || r.pc.ExitSw?
    || (r.pc.In? && r.pc.job.XRel?) || (r.place.OnCpu? && (r.pc.Asleep? || r.pc.Yielded? || r.pc.Fresh?))
  }

  /** The thread holds this spinlock. */
  predicate Holds(pc: Pc, lk: Lock) {
    (pc.In? || pc.Waking? || pc.SleepOwn?) && pc.lk == lk
  }

  /** begin_op has to wait. */
  predicate LogBusy(s: St) {
    s.committer.Some? || !Log.Admits(s.n, s.outstanding)
  }

  predicate JobFits(lk: Lock, job: Job) {
    match job
    case WScan(_, _) => lk == WaitLock
    case XRep(_) => lk == WaitLock
    case XLock => lk == WaitLock
    case XRel => lk == WaitLock
    case ASCheck => lk.SleepLk?
    case RSFree => lk.SleepLk?
    case BOCheck => lk == LogLock
    case EODec => lk == LogLock
    case CDone => lk == LogLock
    case Done => true
  }

  /** Where sleep() returns to: the test is made again. */
  function Retry(lk: Lock): (job: Job) {
    match lk
    case WaitLock => WScan(0, false)
    case SleepLk(_) => ASCheck
    case LogLock => BOCheck
  }

  // ----- steps -----

  /** The schedulers, and threads coming and going. */
  datatype CpuStep =
    | Dispatch(c: nat, p: nat)
    | Switch(p: nat)
    | Unlock(c: nat)
    | Resume(p: nat)
    | Yield(p: nat)

  /** Spinlocks, sleep and wakeup, sleeplocks, kill. */
  datatype SyncStep =
    | Call(p: nat, lk: Lock, job: Job)
    | Acquire(p: nat)
    | GoToSleep(p: nat)
    | SleepRelease(p: nat)
    | SleepMark(p: nat)
    | Wake(p: nat)
    | TakeSleep(p: nat)
    | FreeSleep(p: nat)
    | Finish(p: nat)
    | Kill(p: nat, i: nat)

  /** wait, exit and fork. */
  datatype LifeStep =
    | Scan(p: nat, give: bool)
    | Reparent(p: nat)
    | Exit(p: nat)
    | ExitRelease(p: nat)
    | ForkAlloc(p: nat, i: nat)
    | ForkFail(p: nat)
    | ForkParent(p: nat)
    | ForkGo(p: nat)

  /** begin_op, end_op and commit; log_write adding a block. */
  datatype LogStep =
    | BeginOp(p: nat)
    | EndOp(p: nat)
    | EraseLog(p: nat)
    | CommitOver(p: nat)
    | CommitDone(p: nat)
    | Append(p: nat)

  datatype Action = Cpus(c: CpuStep) | Syncs(y: SyncStep) | Lives(f: LifeStep) | Logs(g: LogStep)

  predicate Runs(s: St, p: nat) {
    p < |s.pr| && s.pr[p].place.OnCpu?
  }

  predicate AtJob(s: St, p: nat, job: Job) {
    Runs(s, p) && s.pr[p].pc.In? && s.pr[p].pc.job == job
  }

  /** Calls a process makes on its own: wait, exit (not by init), acquiresleep,
      releasesleep of a lock it holds, begin_op, end_op of an operation it is in. */
  predicate Callable(s: St, p: nat, lk: Lock, job: Job) {
    match job
    case WScan(i, kids) => lk == WaitLock && i == 0 && !kids
    case XRep(i) => lk == WaitLock && i == 0 && p != INIT
    case ASCheck => lk.SleepLk?
    case RSFree => lk.SleepLk? && lk.l in s.locked && s.locked[lk.l] == p
    case BOCheck => lk == LogLock
    case EODec => lk == LogLock
    case _ => false
  }

  /** The channel on which the holder of lk at this job goes to sleep. */
  function SleepsOn(p: nat, lk: Lock): (c: Chan) {
    match lk
    case WaitLock => Child(p)
    case SleepLk(l) => SleepChan(l)
    case LogLock => LogChan
  }

  /** The test in the loop around sleep() came out in favour of sleeping. */
  predicate WantsSleep(s: St, p: nat) {
    Runs(s, p) && s.pr[p].pc.In? &&
    match s.pr[p].pc.job
    case WScan(i, kids) => i == |s.pr| && kids
    case ASCheck => s.pr[p].pc.lk.SleepLk? && s.pr[p].pc.lk.l in s.locked
    case BOCheck => LogBusy(s)
    case _ => false
  }

  // ----- when each step is possible -----

  predicate CanDispatch(s: St, c: nat, p: nat) {
    c < |s.cpu| && s.cpu[c].Idle? && p < |s.pr| && s.pr[p].state == RUNNABLE && !OwnLocked(s.pr[p])
  }

  predicate CanSwitch(s: St, p: nat) {
    Runs(s, p) && s.pr[p].place.c < |s.cpu| && (s.pr[p].pc.SleepSw? || s.pr[p].pc.YieldSw? || s.pr[p].pc.ExitSw?)
  }

  predicate CanUnlock(s: St, c: nat) { c < |s.cpu| && s.cpu[c].Back? && s.cpu[c].p < |s.pr| }

  predicate CanResume(s: St, p: nat) { Runs(s, p) && (s.pr[p].pc.Asleep? || s.pr[p].pc.Yielded? || s.pr[p].pc.Fresh?) }

  predicate IsOut(s: St, p: nat) { Runs(s, p) && s.pr[p].pc.Out? }

  predicate IsPlain(s: St, p: nat) { IsOut(s, p) && s.pr[p].ctx.Plain? }

  /** A timer interrupt makes the thread yield where it holds no spinlock, be it in
      the middle of fork or commit or between sleep and taking its lock again. */
  predicate CanYield(s: St, p: nat) { Runs(s, p) && (s.pr[p].pc.Out? || s.pr[p].pc.Want?) }

  /** commit takes and releases the sleeplocks of buffers. */
  predicate CanCall(s: St, p: nat, lk: Lock, job: Job) {
    && IsOut(s, p) && Callable(s, p, lk, job)
    && (s.pr[p].ctx.Plain? || (s.pr[p].ctx.Committing? && lk.SleepLk?))
  }

  predicate CanAcquire(s: St, p: nat) { Runs(s, p) && s.pr[p].pc.Want? && s.pr[p].pc.lk !in s.held }

  predicate CanScan(s: St, p: nat) {
    && Runs(s, p) && s.pr[p].pc.In? && s.pr[p].pc.job.WScan? && s.pr[p].pc.job.i < |s.pr|
    && (s.pr[s.pr[p].pc.job.i].parent == Some(p) ==> !OwnLocked(s.pr[s.pr[p].pc.job.i]))
  }

  predicate CanReparent(s: St, p: nat) { Runs(s, p) && s.pr[p].pc.In? && s.pr[p].pc.job.XRep? }

  predicate CanWake(s: St, p: nat) {
    Runs(s, p) && s.pr[p].pc.Waking? && (s.pr[p].pc.j < |s.pr| && s.pr[p].pc.j != p ==> !OwnLocked(s.pr[s.pr[p].pc.j]))
  }

  predicate CanTakeSleep(s: St, p: nat) {
    AtJob(s, p, ASCheck) && s.pr[p].pc.lk.SleepLk? && s.pr[p].pc.lk.l !in s.locked
  }

  predicate CanFreeSleep(s: St, p: nat) { AtJob(s, p, RSFree) && s.pr[p].pc.lk.SleepLk? }

  predicate CanFinish(s: St, p: nat) {
    && Runs(s, p) && s.pr[p].pc.In?
    && (s.pr[p].pc.job.Done?
        || (s.pr[p].pc.job.WScan? && s.pr[p].pc.job.i == |s.pr| && (!s.pr[p].pc.job.kids || s.pr[p].killed)))
  }

  predicate CanForkAlloc(s: St, p: nat, i: nat) { IsPlain(s, p) && i < |s.pr| && s.pr[i].state == UNUSED }

  predicate InFork(s: St, p: nat) { IsOut(s, p) && s.pr[p].ctx.Forking? && s.pr[p].ctx.i < |s.pr| }

  predicate CanForkGo(s: St, p: nat) { IsOut(s, p) && s.pr[p].ctx.ForkRun? && s.pr[p].ctx.i < |s.pr| }

  predicate InCommit(s: St, p: nat) { IsOut(s, p) && s.pr[p].ctx.Committing? }

  predicate CpuEnabled(s: St, a: CpuStep) {
    match a
    case Dispatch(c, p) => CanDispatch(s, c, p)
    case Switch(p) => CanSwitch(s, p)
    case Unlock(c) => CanUnlock(s, c)
    case Resume(p) => CanResume(s, p)
    case Yield(p) => CanYield(s, p)
  }

  predicate SyncEnabled(s: St, a: SyncStep) {
    match a
    case Call(p, lk, job) => CanCall(s, p, lk, job)
    case Acquire(p) => CanAcquire(s, p)
    case GoToSleep(p) => WantsSleep(s, p)
    case SleepRelease(p) => Runs(s, p) && s.pr[p].pc.SleepOwn?
    case SleepMark(p) => Runs(s, p) && s.pr[p].pc.SleepSet?
    case Wake(p) => CanWake(s, p)
    case TakeSleep(p) => CanTakeSleep(s, p)
    case FreeSleep(p) => CanFreeSleep(s, p)
    case Finish(p) => CanFinish(s, p)
    case Kill(p, i) => IsPlain(s, p) && i < |s.pr| && s.pr[i].state != UNUSED && !OwnLocked(s.pr[i])
  }

  predicate LifeEnabled(s: St, a: LifeStep) {
    match a
    case Scan(p, give) => CanScan(s, p)
    case Reparent(p) => CanReparent(s, p)
    case Exit(p) => AtJob(s, p, XLock)
    case ExitRelease(p) => AtJob(s, p, XRel)
    case ForkAlloc(p, i) => CanForkAlloc(s, p, i)
    case ForkFail(p) => InFork(s, p)
    case ForkParent(p) => InFork(s, p) && WaitLock !in s.held
    case ForkGo(p) => CanForkGo(s, p)
  }

  predicate LogEnabled(s: St, a: LogStep) {
    match a
    case BeginOp(p) => AtJob(s, p, BOCheck) && !LogBusy(s)
    case EndOp(p) => AtJob(s, p, EODec) && s.outstanding > 0
    case EraseLog(p) => InCommit(s, p)
    case CommitOver(p) => InCommit(s, p)
    case CommitDone(p) => AtJob(s, p, CDone)
    case Append(p) => IsPlain(s, p) && LogLock !in s.held && s.n < LOGSIZE
  }

  predicate Enabled(s: St, a: Action) {
    match a
    case Cpus(c) => CpuEnabled(s, c)
    case Syncs(y) => SyncEnabled(s, y)
    case Lives(f) => LifeEnabled(s, f)
    case Logs(g) => LogEnabled(s, g)
  }

  // ----- what each step does -----

  const FREE_PROC: Proc := Proc(UNUSED, None, None, NoThread, Nowhere, None, Plain, false)

  function SetPc(s: St, p: nat, pc: Pc): (r: St)
    requires p < |s.pr|
  {
    s.(pr := s.pr[p := s.pr[p].(pc := pc)])
  }

  function SetCtx(s: St, p: nat, ctx: Ctx): (r: St)
    requires p < |s.pr|
  {
    s.(pr := s.pr[p := s.pr[p].(ctx := ctx)])
  }

  /** commit() returns. */
  function AfterCommitOver(s: St, p: nat): (r: St)
    requires InCommit(s, p)
  {
    s.(pr := s.pr[p := s.pr[p].(pc := Want(LogLock, CDone), ctx := Plain)])
  }

  /** Two processes change. */
  function SetTwo(s: St, p: nat, r: Proc, q: nat, t: Proc): (r': St)
    requires p < |s.pr| && q < |s.pr|
  {
    s.(pr := s.pr[q := t][p := r])
  }

  predicate CanLeave(s: St, p: nat) { p < |s.pr| && (s.pr[p].pc.In? || s.pr[p].pc.SleepOwn?) }

  /** Release the spinlock and go on at pc. */
  function Leave(s: St, p: nat, pc: Pc): (r: St)
    requires CanLeave(s, p)
  {
    s.(pr := s.pr[p := s.pr[p].(pc := pc)], held := s.held - {s.pr[p].pc.lk})
  }

  function AfterDispatch(s: St, c: nat, p: nat): (r: St)
    requires CanDispatch(s, c, p)
  {
    s.(pr := s.pr[p := s.pr[p].(state := RUNNING, place := OnCpu(c))], cpu := s.cpu[c := On(p)])
  }

  function SwitchedPc(pc: Pc): (r: Pc) {
    match pc
    case SleepSw(lk, ch) => Asleep(lk, ch)
    case YieldSw(to) => Yielded(to)
    case _ => Dead
  }

  function AfterSwitch(s: St, p: nat): (r: St)
    requires CanSwitch(s, p)
  {
    var c := s.pr[p].place.c;
    s.(pr := s.pr[p := s.pr[p].(pc := SwitchedPc(s.pr[p].pc), place := BackOn(c))], cpu := s.cpu[c := Back(p)])
  }

  function AfterUnlock(s: St, c: nat): (r: St)
    requires CanUnlock(s, c)
  {
    var p := s.cpu[c].p;
    s.(pr := s.pr[p := s.pr[p].(place := Nowhere)], cpu := s.cpu[c := Idle])
  }

  function AfterResume(s: St, p: nat): (r: St)
    requires CanResume(s, p)
  {
    var pc := s.pr[p].pc;
    var to := match pc case Asleep(lk, _) => Want(lk, Retry(lk)) case Yielded(to) => to case _ => Out;
    s.(pr := s.pr[p := s.pr[p].(chan := None, pc := to)])
  }

  function AfterYield(s: St, p: nat): (r: St)
    requires CanYield(s, p)
  {
    s.(pr := s.pr[p := s.pr[p].(state := RUNNABLE, pc := YieldSw(s.pr[p].pc))])
  }

  function AfterAcquire(s: St, p: nat): (r: St)
    requires CanAcquire(s, p)
  {
    var pc := s.pr[p].pc;
    s.(pr := s.pr[p := s.pr[p].(pc := In(pc.lk, pc.job))], held := s.held[pc.lk := p])
  }

  function AfterScan(s: St, p: nat, give: bool): (r: St)
    requires CanScan(s, p)
  {
    var lk, i := s.pr[p].pc.lk, s.pr[p].pc.job.i;
    if s.pr[i].parent != Some(p) then SetPc(s, p, In(lk, WScan(i + 1, s.pr[p].pc.job.kids)))
    else if s.pr[i].state != ZOMBIE then SetPc(s, p, In(lk, WScan(i + 1, true)))
    else if !give then Leave(s, p, Out)
    else s.(pr := s.pr[i := FREE_PROC][p := s.pr[p].(pc := Out)], held := s.held - {lk})
  }

  function AfterGoToSleep(s: St, p: nat): (r: St)
    requires WantsSleep(s, p)
  {
    var lk := s.pr[p].pc.lk;
    SetPc(s, p, SleepOwn(lk, SleepsOn(p, lk)))
  }

  function AfterSleepRelease(s: St, p: nat): (r: St)
    requires Runs(s, p) && s.pr[p].pc.SleepOwn?
  {
    Leave(s, p, SleepSet(s.pr[p].pc.lk, s.pr[p].pc.ch))
  }

  function AfterSleepMark(s: St, p: nat): (r: St)
    requires Runs(s, p) && s.pr[p].pc.SleepSet?
  {
    var pc := s.pr[p].pc;
    s.(pr := s.pr[p := s.pr[p].(state := SLEEPING, chan := Some(pc.ch), pc := SleepSw(pc.lk, pc.ch))])
  }

  function AfterReparent(s: St, p: nat): (r: St)
    requires CanReparent(s, p)
  {
    var i, lk := s.pr[p].pc.job.i, s.pr[p].pc.lk;
    if i >= |s.pr| then
      SetPc(s, p, if s.pr[p].parent.Some? then Waking(lk, Child(s.pr[p].parent.value), 0, XLock) else In(lk, XLock))
    else if s.pr[i].parent != Some(p) then SetPc(s, p, In(lk, XRep(i + 1)))
    else SetPc(s.(pr := s.pr[i := s.pr[i].(parent := Some(INIT))]), p, Waking(lk, Child(INIT), 0, XRep(i + 1)))
  }

  function AfterWake(s: St, p: nat): (r: St)
    requires CanWake(s, p)
  {
    var pc := s.pr[p].pc;
    if pc.j >= |s.pr| then SetPc(s, p, In(pc.lk, pc.job))
    else
      var next := Waking(pc.lk, pc.ch, pc.j + 1, pc.job);
      if pc.j != p && s.pr[pc.j].state == SLEEPING && s.pr[pc.j].chan == Some(pc.ch)
      then SetTwo(s, p, s.pr[p].(pc := next), pc.j, s.pr[pc.j].(state := RUNNABLE))
      else SetPc(s, p, next)
  }

  function AfterExit(s: St, p: nat): (r: St)
    requires AtJob(s, p, XLock)
  {
    s.(pr := s.pr[p := s.pr[p].(state := ZOMBIE, pc := In(s.pr[p].pc.lk, XRel))])
  }

  function AfterTakeSleep(s: St, p: nat): (r: St)
    requires CanTakeSleep(s, p)
  {
    Leave(s, p, Out).(locked := s.locked[s.pr[p].pc.lk.l := p])
  }

  function AfterFreeSleep(s: St, p: nat): (r: St)
    requires CanFreeSleep(s, p)
  {
    var lk := s.pr[p].pc.lk;
    SetPc(s, p, Waking(lk, SleepChan(lk.l), 0, Done)).(locked := s.locked - {lk.l})
  }

  function AfterBeginOp(s: St, p: nat): (r: St)
    requires AtJob(s, p, BOCheck)
  {
    Leave(s, p, Out).(outstanding := s.outstanding + 1)
  }

  function AfterEndOp(s: St, p: nat): (r: St)
    requires AtJob(s, p, EODec) && s.outstanding > 0
  {
    if s.outstanding == 1 then SetCtx(Leave(s, p, Out), p, Committing).(outstanding := 0, committer := Some(p))
    else SetPc(s, p, Waking(s.pr[p].pc.lk, LogChan, 0, Done)).(outstanding := s.outstanding - 1)
  }

  function AfterCommitDone(s: St, p: nat): (r: St)
    requires AtJob(s, p, CDone)
  {
    SetPc(s, p, Waking(s.pr[p].pc.lk, LogChan, 0, Done)).(committer := None)
  }

  function AfterForkAlloc(s: St, p: nat, i: nat): (r: St)
    requires CanForkAlloc(s, p, i)
  {
    SetTwo(s, p, s.pr[p].(ctx := Forking(i)), i, s.pr[i].(state := USED, maker := Some(p)))
  }

  function AfterForkFail(s: St, p: nat): (r: St)
    requires InFork(s, p)
  {
    SetTwo(s, p, s.pr[p].(ctx := Plain), s.pr[p].ctx.i, FREE_PROC)
  }

  function AfterForkParent(s: St, p: nat): (r: St)
    requires InFork(s, p)
  {
    var i := s.pr[p].ctx.i;
    SetTwo(s, p, s.pr[p].(ctx := ForkRun(i)), i, s.pr[i].(parent := Some(p)))
  }

  function AfterForkGo(s: St, p: nat): (r: St)
    requires CanForkGo(s, p)
  {
    var i := s.pr[p].ctx.i;
    SetTwo(s, p, s.pr[p].(ctx := Plain), i, s.pr[i].(state := RUNNABLE, pc := Fresh, maker := None))
  }

  function AfterKill(s: St, i: nat): (r: St)
    requires i < |s.pr|
  {
    var p := s.pr[i];
    s.(pr := s.pr[i := p.(state := if p.state == SLEEPING then RUNNABLE else p.state, killed := true)])
  }

  function DoCpu(s: St, a: CpuStep): (r: St)
    requires CpuEnabled(s, a)
  {
    match a
    case Dispatch(c, p) => AfterDispatch(s, c, p)
    case Switch(p) => AfterSwitch(s, p)
    case Unlock(c) => AfterUnlock(s, c)
    case Resume(p) => AfterResume(s, p)
    case Yield(p) => AfterYield(s, p)
  }

  function DoSync(s: St, a: SyncStep): (r: St)
    requires SyncEnabled(s, a)
  {
    match a
    case Call(p, lk, job) => SetPc(s, p, Want(lk, job))
    case Acquire(p) => AfterAcquire(s, p)
    case GoToSleep(p) => AfterGoToSleep(s, p)
    case SleepRelease(p) => AfterSleepRelease(s, p)
    case SleepMark(p) => AfterSleepMark(s, p)
    case Wake(p) => AfterWake(s, p)
    case TakeSleep(p) => AfterTakeSleep(s, p)
    case FreeSleep(p) => AfterFreeSleep(s, p)
    case Finish(p) => Leave(s, p, Out)
    case Kill(p, i) => AfterKill(s, i)
  }

  function DoLife(s: St, a: LifeStep): (r: St)
    requires LifeEnabled(s, a)
  {
    match a
    case Scan(p, give) => AfterScan(s, p, give)
    case Reparent(p) => AfterReparent(s, p)
    case Exit(p) => AfterExit(s, p)
    case ExitRelease(p) => Leave(s, p, ExitSw)
    case ForkAlloc(p, i) => AfterForkAlloc(s, p, i)
    case ForkFail(p) => AfterForkFail(s, p)
    case ForkParent(p) => AfterForkParent(s, p)
    case ForkGo(p) => AfterForkGo(s, p)
  }

  function DoLog(s: St, a: LogStep): (r: St)
    requires LogEnabled(s, a)
  {
    match a
    case BeginOp(p) => AfterBeginOp(s, p)
    case EndOp(p) => AfterEndOp(s, p)
    case EraseLog(p) => s.(n := 0)
    case CommitOver(p) => AfterCommitOver(s, p)
    case CommitDone(p) => AfterCommitDone(s, p)
    case Append(p) => s.(n := s.n + 1)
  }

  function Do(s: St, a: Action): (r: St)
    requires Enabled(s, a)
  {
    match a
    case Cpus(c) => DoCpu(s, c)
    case Syncs(y) => DoSync(s, y)
    case Lives(f) => DoLife(s, f)
    case Logs(g) => DoLog(s, g)
  }

  // ----- runs -----

  /** After boot: init is about to run for the first time; all else is free. */
  predicate Init(s: St) {
    && |s.pr| > 0 && s.pr[INIT] == Proc(RUNNABLE, None, None, Fresh, Nowhere, None, Plain, false)
    && (forall p :: 0 < p < |s.pr| ==> s.pr[p] == FREE_PROC)
    && (forall c :: 0 <= c < |s.cpu| ==> s.cpu[c] == Idle)
    && s.held == map[] && s.locked == map[] && s.committer == None && s.outstanding == 0 && s.n == 0
  }

  ghost predicate Run(states: seq<St>, actions: seq<Action>) {
    && |states| == |actions| + 1 && Init(states[0])
    && forall k :: 0 <= k < |actions| ==> Enabled(states[k], actions[k]) && states[k + 1] == Do(states[k], actions[k])
  }
}
