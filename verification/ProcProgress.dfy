/** Nobody gets stuck: in every run a thread on a CPU can take a step, or it waits for
    the p->lock of a process that can. */
module ProcProgress {
  import opened Bytes
  import opened ProcMachine
  import opened ProcInvariant
  import opened ProcTheorems
  import opened ProcWait

  // ----- p->lock -----

  /** What comes next where p->lock is held. */
  function OwnStep(s: St, p: nat): (a: Action)
    requires p < |s.pr|
  {
    var r := s.pr[p];
    if r.place.BackOn? then Cpus(Unlock(r.place.c))
    else if r.pc.SleepOwn? then Syncs(SleepRelease(p))
    else if r.pc.SleepSet? then Syncs(SleepMark(p))
    else if r.pc.In? then Lives(ExitRelease(p))
    else if r.pc.SleepSw? || r.pc.YieldSw? || r.pc.ExitSw? then Cpus(Switch(p))
    else Cpus(Resume(p))
  }

  /** Whoever holds a p->lock across steps can go on and needs no other lock for it. */
  lemma {:induction false} OwnLockMoves(s: St, p: nat)
    requires Inv(s) && p < |s.pr| && OwnLocked(s.pr[p])
    ensures Enabled(s, OwnStep(s, p))
  {
    assert Basic(s, p);
    hide Inv, HeldAt, MakerAt, ParentAt, PcFits;
  }

  // ----- the rest -----

  /** The thread needs the p->lock of q, which is held. */
  predicate NeedsLockOf(s: St, p: nat, q: nat) {
    p < |s.pr| && q < |s.pr| && OwnLocked(s.pr[q]) &&
    ((s.pr[p].pc.In? && s.pr[p].pc.job.WScan? && s.pr[p].pc.job.i == q && s.pr[q].parent == Some(p))
     || (s.pr[p].pc.Waking? && s.pr[p].pc.j == q && q != p))
  }

  /** What the holder of a spinlock does next. */
  function JobStep(s: St, p: nat): (a: Action)
    requires p < |s.pr| && s.pr[p].pc.In?
  {
    match s.pr[p].pc.job
    case WScan(i, kids) =>
      if i < |s.pr| then Lives(Scan(p, true)) else if kids then Syncs(GoToSleep(p)) else Syncs(Finish(p))
    case XRep(_) => Lives(Reparent(p))
    case XLock => Lives(Exit(p))
    case XRel => Lives(ExitRelease(p))
    case ASCheck => if WantsSleep(s, p) then Syncs(GoToSleep(p)) else Syncs(TakeSleep(p))
    case RSFree => Syncs(FreeSleep(p))
    case BOCheck => if LogBusy(s) then Syncs(GoToSleep(p)) else Logs(BeginOp(p))
    case EODec => Logs(EndOp(p))
    case CDone => Logs(CommitDone(p))
    case Done => Syncs(Finish(p))
  }

  lemma {:induction false} JobMoves(s: St, p: nat)
    requires p < |s.pr| && s.pr[p].pc.In? && s.pr[p].place.OnCpu? && PcFits(s.pr[p], p)
    requires s.pr[p].pc.job.WScan? ==> s.pr[p].pc.job.i <= |s.pr|
    ensures Enabled(s, JobStep(s, p)) || (exists q: nat :: NeedsLockOf(s, p, q))
      || (s.pr[p].pc.job.EODec? && s.outstanding == 0)
  {
    hide CtxFits;
    if s.pr[p].pc.job.WScan? {
      var i := s.pr[p].pc.job.i;
      if i < |s.pr| && s.pr[i].parent == Some(p) && OwnLocked(s.pr[i]) { assert NeedsLockOf(s, p, i); }
    }
  }

  function NextStep(s: St, p: nat): (a: Action)
    requires p < |s.pr|
  {
    var pc := s.pr[p].pc;
    if pc.In? then JobStep(s, p)
    else if pc.Waking? then Syncs(Wake(p))
    else if pc.Want? && pc.lk !in s.held then Syncs(Acquire(p))
    else if pc.Out? || pc.Want? then Cpus(Yield(p))
    else OwnStep(s, p)
  }

  lemma {:induction false} Moves(s: St, p: nat)
    requires Inv(s) && KidsAt(s, p) && p < |s.pr| && s.pr[p].place.OnCpu?
    ensures Enabled(s, NextStep(s, p)) || (exists q: nat :: NeedsLockOf(s, p, q))
      || (s.pr[p].pc.In? && s.pr[p].pc.job.EODec? && s.outstanding == 0)
  {
    assert Basic(s, p);
    var pc := s.pr[p].pc;
    if pc.In? {
      JobMoves(s, p);
    } else if pc.Waking? {
      if pc.j < |s.pr| && pc.j != p && OwnLocked(s.pr[pc.j]) { assert NeedsLockOf(s, p, pc.j); }
    } else if !pc.Out? && !pc.Want? {
      OwnLockMoves(s, p);
    }
  }

  /** In every run a thread on a CPU can take its next step, unless it needs a p->lock
      that is held; then whoever holds that can take a step. (An end_op without begin_op
      would have no step.) */
  lemma {:induction false} NobodyStuck(states: seq<St>, actions: seq<Action>, k: nat, p: nat)
    requires Run(states, actions) && k < |states| && p < |states[k].pr| && states[k].pr[p].place.OnCpu?
    ensures var s := states[k];
      || Enabled(s, NextStep(s, p))
      || (exists q: nat :: NeedsLockOf(s, p, q) && Enabled(s, OwnStep(s, q)))
      || (s.pr[p].pc.In? && s.pr[p].pc.job.EODec? && s.outstanding == 0)
  {
    var s := states[k];
    RunKids(states, actions, k);
    assert KidsAt(s, p);
    hide Inv, Run, Enabled, KidsAt;
    Moves(s, p);
    if q: nat :| NeedsLockOf(s, p, q) { OwnLockMoves(s, q); }
  }

  /** In every run a process that is runnable and not held by a scheduler gets any CPU
      that is idle. */
  lemma {:induction false} RunnableRuns(states: seq<St>, actions: seq<Action>, k: nat, p: nat, c: nat)
    requires Run(states, actions) && k < |states| && p < |states[k].pr| && states[k].pr[p].state == RUNNABLE
    requires c < |states[k].cpu| && states[k].cpu[c] == Idle
    ensures Enabled(states[k], Cpus(Dispatch(c, p))) || Enabled(states[k], OwnStep(states[k], p))
  {
    RunKeeps(states, actions, k);
    if OwnLocked(states[k].pr[p]) { OwnLockMoves(states[k], p); }
  }
}
