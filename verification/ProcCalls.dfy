/** What the functions of the process machine have done by the time they return:
    acquiresleep has the lock, releasesleep has given it up, begin_op and end_op have
    counted, wait has freed a child or has none, exit does not return. */
module ProcCalls {
  import opened Bytes
  import opened ProcMachine
  import opened ProcInvariant
  import opened ProcTheorems

  /** This step of p is the one for which the function was called. */
  predicate Serves(s: St, a: Action, p: nat, job: Job) {
    match job
    case ASCheck => a == Syncs(TakeSleep(p))
    case RSFree => a == Syncs(FreeSleep(p))
    case BOCheck => a == Logs(BeginOp(p))
    case EODec => a == Logs(EndOp(p))
    case WScan(_, _) => a == Syncs(Finish(p))
      || (a.Lives? && a.f.Scan? && a.f.p == p && CanScan(s, p) && ZombieOf(s.pr, p, s.pr[p].pc.job.i))
    case _ => false
  }

  /** What p still owes to its caller: the job of its last call until a step serves it.
      A slot that wait frees owes nothing. */
  function NextDuty(s: St, a: Action, p: nat, d: Option<Job>): (r: Option<Job>) {
    if a.Syncs? && a.y.Call? && a.y.p == p then Some(a.y.job)
    else if Reaped(s, a) == Some(p) || (d.Some? && Serves(s, a, p, d.value)) then None
    else d
  }

  function Duty(states: seq<St>, actions: seq<Action>, k: nat, p: nat): (d: Option<Job>)
    requires k <= |actions| && k <= |states|
  {
    if k == 0 then None else NextDuty(states[k - 1], actions[k - 1], p, Duty(states, actions, k - 1, p))
  }

  predicate Nears(pc: Pc) { pc.Want? || pc.In? }

  /** The thread is in the function whose work it owes. */
  predicate DutyFits(pc: Pc, d: Option<Job>) {
    var b := Base(pc);
    match d
    case None => b.Out? || b.NoThread? || b.Fresh? || (HasJob(b) && (b.job.Done? || b.job.CDone?))
    case Some(ASCheck) => (Nears(b) && b.job.ASCheck?) || (SleepPc(b) && b.lk.SleepLk?)
    case Some(RSFree) => Nears(b) && b.job.RSFree?
    case Some(BOCheck) => (Nears(b) && b.job.BOCheck?) || (SleepPc(b) && b.lk.LogLock?)
    case Some(EODec) => Nears(b) && b.job.EODec?
    case Some(WScan(_, _)) => (Nears(b) && b.job.WScan?) || (SleepPc(b) && b.lk.WaitLock?)
    case Some(XRep(_)) => Exiting(b)
    case Some(_) => false
  }

  lemma {:induction false} CpuDuty(s: St, a: CpuStep, p: nat, d: Option<Job>)
    requires Inv(s) && CpuEnabled(s, a) && p < |s.pr| && DutyFits(s.pr[p].pc, d)
    ensures p < |DoCpu(s, a).pr| && DutyFits(DoCpu(s, a).pr[p].pc, d)
  {
    assert Basic(s, p);
    hide Inv, Links;
  }

  lemma {:induction false} FitsAt(s: St, p: nat)
    requires Inv(s) && p < |s.pr|
    ensures PcFits(s.pr[p], p)
  {
    assert Basic(s, p);
  }

  lemma {:induction false} SyncReaps(s: St, a: SyncStep)
    ensures Reaped(s, Syncs(a)) == None
    ensures forall p: nat, job: Job :: p != a.p || a.Kill? || a.Wake? ==> !Serves(s, Syncs(a), p, job)
    ensures forall job: Job :: a.Acquire? || a.GoToSleep? || a.SleepRelease? || a.SleepMark? ==>
      !Serves(s, Syncs(a), a.p, job)
  {
  }

  lemma {:induction false} OtherSync(s: St, a: SyncStep, p: nat)
    requires SyncEnabled(s, a) && p < |s.pr| && (a.Kill? || p != a.p)
    ensures |DoSync(s, a).pr| == |s.pr| && DoSync(s, a).pr[p].pc == s.pr[p].pc
  {
  }

  lemma {:induction false} LockDuty(s: St, a: SyncStep, p: nat, d: Option<Job>)
    requires SyncEnabled(s, a) && p == a.p && DutyFits(s.pr[p].pc, d) && PcFits(s.pr[p], p)
    requires a.Call? || a.Acquire? || a.GoToSleep? || a.SleepRelease? || a.SleepMark?
    ensures |DoSync(s, a).pr| == |s.pr| && DutyFits(DoSync(s, a).pr[p].pc, if a.Call? then Some(a.job) else d)
  {
    hide CtxFits, LogBusy;
  }

  lemma {:induction false} WakeDuty(s: St, a: SyncStep, p: nat, d: Option<Job>)
    requires SyncEnabled(s, a) && p == a.p && DutyFits(s.pr[p].pc, d) && PcFits(s.pr[p], p)
    requires a.Wake? || a.TakeSleep? || a.FreeSleep? || a.Finish?
    ensures |DoSync(s, a).pr| == |s.pr| && DutyFits(DoSync(s, a).pr[p].pc, if a.Wake? then d else None)
    ensures !a.Wake? ==> d == None || Serves(s, Syncs(a), p, d.value)
  {
    hide CtxFits;
  }

  lemma {:induction false} SyncDuty(s: St, a: SyncStep, p: nat, d: Option<Job>)
    requires Inv(s) && SyncEnabled(s, a) && p < |s.pr| && DutyFits(s.pr[p].pc, d)
    ensures p < |DoSync(s, a).pr| && DutyFits(DoSync(s, a).pr[p].pc, NextDuty(s, Syncs(a), p, d))
  {
    hide Inv, DutyFits, PcFits, SyncEnabled, DoSync, Serves, Reaped;
    FitsAt(s, p);
    SyncReaps(s, a);
    if a.Kill? || p != a.p {
      OtherSync(s, a, p);
    } else if a.Wake? || a.TakeSleep? || a.FreeSleep? || a.Finish? {
      WakeDuty(s, a, p, d);
    } else {
      LockDuty(s, a, p, d);
    }
  }
  /** Another process frees this slot, starts its thread or leaves it alone. */
  lemma {:induction false} OtherLife(s: St, a: LifeStep, p: nat)
    requires Inv(s) && LifeEnabled(s, a) && p < |s.pr| && p != a.p
    ensures |DoLife(s, a).pr| == |s.pr|
    ensures var pc := DoLife(s, a).pr[p].pc;
      || pc == s.pr[p].pc || (Reaped(s, Lives(a)) == Some(p) && pc.NoThread?)
      || (s.pr[p].pc.NoThread? && (pc.NoThread? || pc.Fresh?))
  {
    if a.ForkFail? || a.ForkGo? { assert Basic(s, a.p) && Basic(s, s.pr[a.p].ctx.i); }
    hide Inv, PlaceAt, HeldAt, ParentAt, PcFits;
  }

  /** The thread's own step in exit, fork or wait. */
  lemma {:induction false} OwnLife(s: St, a: LifeStep, d: Option<Job>)
    requires LifeEnabled(s, a) && DutyFits(s.pr[a.p].pc, d) && PcFits(s.pr[a.p], a.p) && !a.Scan?
    requires (a.ForkAlloc? ==> a.i != a.p) && (a.ForkFail? || a.ForkParent? || a.ForkGo? ==> s.pr[a.p].ctx.i != a.p)
    ensures |DoLife(s, a).pr| == |s.pr| && DutyFits(DoLife(s, a).pr[a.p].pc, d)
  {
    hide CtxFits;
  }

  lemma {:induction false} OwnScan(s: St, a: LifeStep, d: Option<Job>)
    requires LifeEnabled(s, a) && a.Scan? && DutyFits(s.pr[a.p].pc, d)
    ensures |DoLife(s, a).pr| == |s.pr| && d.Some? && d.value.WScan?
    ensures DutyFits(DoLife(s, a).pr[a.p].pc, if Serves(s, Lives(a), a.p, d.value) then None else d)
  {
  }

  lemma {:induction false} LifeDuty(s: St, a: LifeStep, p: nat, d: Option<Job>)
    requires Inv(s) && LifeEnabled(s, a) && p < |s.pr| && DutyFits(s.pr[p].pc, d)
    ensures p < |DoLife(s, a).pr| && DutyFits(DoLife(s, a).pr[p].pc, NextDuty(s, Lives(a), p, d))
  {
    assert Basic(s, p) && Basic(s, a.p);
    if p != a.p {
      OtherLife(s, a, p);
      hide Inv, Basic, LifeEnabled, DoLife;
    } else if a.Scan? {
      OwnScan(s, a, d);
      OwnReaped(s, a);
      hide Inv, Basic, LifeEnabled, DoLife, DutyFits;
    } else {
      NotItself(s, a);
      OwnLife(s, a, d);
      hide Inv, Basic, LifeEnabled, DoLife, DutyFits;
    }
  }

  lemma {:induction false} OwnReaped(s: St, a: LifeStep)
    requires Inv(s) && LifeEnabled(s, a) && a.Scan?
    ensures Reaped(s, Lives(a)) != Some(a.p)
  {
    assert Basic(s, a.p);
    hide Inv;
  }

  /** A process does not fork itself. */
  lemma {:induction false} NotItself(s: St, a: LifeStep)
    requires Inv(s) && LifeEnabled(s, a)
    ensures (a.ForkAlloc? ==> a.i != a.p) && (a.ForkFail? || a.ForkParent? || a.ForkGo? ==> s.pr[a.p].ctx.i != a.p)
  {
    assert Basic(s, a.p);
    hide Inv, PlaceAt, HeldAt, ParentAt, PcFits;
  }

  lemma {:induction false} LogDuty(s: St, a: LogStep, p: nat, d: Option<Job>)
    requires Inv(s) && LogEnabled(s, a) && p < |s.pr| && DutyFits(s.pr[p].pc, d)
    ensures p < |DoLog(s, a).pr| && DutyFits(DoLog(s, a).pr[p].pc, NextDuty(s, Logs(a), p, d))
  {
    hide Inv, LogBusy;
  }

  lemma {:induction false} StepDuty(s: St, a: Action, p: nat, d: Option<Job>)
    requires Inv(s) && Enabled(s, a) && p < |s.pr| && DutyFits(s.pr[p].pc, d)
    ensures |Do(s, a).pr| == |s.pr| && DutyFits(Do(s, a).pr[p].pc, NextDuty(s, a, p, d))
  {
    SameTable(s, a);
    hide Inv, DutyFits;
    match a
    case Cpus(c) => CpuDuty(s, c, p, d);
    case Syncs(y) => SyncDuty(s, y, p, d);
    case Lives(f) => LifeDuty(s, f, p, d);
    case Logs(g) => LogDuty(s, g, p, d);
  }

  lemma {:induction false} CpuTable(s: St, a: CpuStep)
    requires CpuEnabled(s, a)
    ensures |DoCpu(s, a).pr| == |s.pr|
  {
  }

  lemma {:induction false} SyncTable(s: St, a: SyncStep)
    requires SyncEnabled(s, a)
    ensures |DoSync(s, a).pr| == |s.pr|
  {
  }

  lemma {:induction false} LifeTable(s: St, a: LifeStep)
    requires LifeEnabled(s, a)
    ensures |DoLife(s, a).pr| == |s.pr|
  {
  }

  lemma {:induction false} SameTable(s: St, a: Action)
    requires Enabled(s, a)
    ensures |Do(s, a).pr| == |s.pr|
  {
    hide CpuEnabled, SyncEnabled, LifeEnabled, DoCpu, DoSync, DoLife;
    match a
    case Cpus(c) => CpuTable(s, c);
    case Syncs(y) => SyncTable(s, y);
    case Lives(f) => LifeTable(s, f);
    case Logs(g) =>
  }

  lemma {:induction false} StepOf(states: seq<St>, actions: seq<Action>, k: nat)
    requires Run(states, actions) && k < |actions|
    ensures Enabled(states[k], actions[k]) && states[k + 1] == Do(states[k], actions[k])
    ensures |states[k + 1].pr| == |states[k].pr|
  {
    SameTable(states[k], actions[k]);
  }

  lemma {:induction false} RunDuty(states: seq<St>, actions: seq<Action>, k: nat, p: nat)
    requires Run(states, actions) && k < |states| && p < |states[k].pr|
    ensures DutyFits(states[k].pr[p].pc, Duty(states, actions, k, p))
  {
    if k > 0 {
      StepOf(states, actions, k - 1);
      RunKeeps(states, actions, k - 1);
      hide Inv, DutyFits, NextDuty, Run, Enabled, Do;
      RunDuty(states, actions, k - 1, p);
      StepDuty(states[k - 1], actions[k - 1], p, Duty(states, actions, k - 1, p));
    }
  }

  predicate ServesAt(states: seq<St>, actions: seq<Action>, m: nat, p: nat, job: Job) {
    m < |actions| && m < |states| && Serves(states[m], actions[m], p, job)
  }

  ghost predicate ServedIn(states: seq<St>, actions: seq<Action>, j: nat, k: nat, p: nat, job: Job) {
    exists m: nat {:trigger ServesAt(states, actions, m, p, job)} :: j < m < k && ServesAt(states, actions, m, p, job)
  }

  lemma {:induction false} OwesStep(s: St, a: Action, p: nat, job: Job)
    requires Enabled(s, a) && p < |s.pr| && DutyFits(s.pr[p].pc, Some(job)) && Reaped(s, a) != Some(p)
    ensures Serves(s, a, p, job) || NextDuty(s, a, p, Some(job)) == Some(job)
  {
    hide Reaped;
  }

  lemma {:induction false} OwesUntil(states: seq<St>, actions: seq<Action>, j: nat, k: nat, p: nat, job: Job)
    requires Run(states, actions) && j < k < |states| && p < |states[k].pr|
    requires actions[j].Syncs? && actions[j].y.Call? && actions[j].y.p == p && actions[j].y.job == job
    requires forall m: nat :: j < m < k ==> Reaped(states[m], actions[m]) != Some(p)
    ensures ServedIn(states, actions, j, k, p, job) || Duty(states, actions, k, p) == Some(job)
  {
    hide Enabled, Do, Serves, Reaped, DutyFits, Init;
    if j + 1 < k {
      var s, a := states[k - 1], actions[k - 1];
      StepOf(states, actions, k - 1);
      OwesUntil(states, actions, j, k - 1, p, job);
      RunDuty(states, actions, k - 1, p);
      if ServedIn(states, actions, j, k - 1, p, job) {
        var m: nat :| j < m < k - 1 && ServesAt(states, actions, m, p, job);
      } else {
        OwesStep(s, a, p, job);
        assert Serves(s, a, p, job) ==> ServesAt(states, actions, k - 1, p, job);
      }
    }
  }

  /** In every run, when a thread is outside these functions, a step since its last call
      has done what the function was called for. So exit does not return. */
  lemma {:induction false} CallsServed(states: seq<St>, actions: seq<Action>, j: nat, k: nat, p: nat)
    requires Run(states, actions) && j < k < |states| && p < |states[k].pr| && Base(states[k].pr[p].pc).Out?
    requires actions[j].Syncs? && actions[j].y.Call? && actions[j].y.p == p
    requires forall m: nat :: j < m < k ==> Reaped(states[m], actions[m]) != Some(p)
    ensures ServedIn(states, actions, j, k, p, actions[j].y.job) && !actions[j].y.job.XRep?
  {
    RunDuty(states, actions, k, p);
    OwesUntil(states, actions, j, k, p, actions[j].y.job);
  }
}
