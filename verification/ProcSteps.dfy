/** Scheduling and locking steps of the process machine keep the invariant. */
module ProcSteps {
  import opened ProcMachine
  import opened ProcInvariant
  import opened ProcFrame

  // ----- CPUs -----

  lemma {:induction false} DispatchKeeps(s: St, c: nat, p: nat)
    requires Inv(s) && CanDispatch(s, c, p)
    ensures Inv(AfterDispatch(s, c, p))
  {
    var s' := AfterDispatch(s, c, p);
    assert Basic(s, p) && Waits(s, p);
    forall q: nat ensures Basic(s', q) {
      assert Basic(s, q);
      if q < |s.pr| && q != p { SameBasic(s, s', q); }
    }
    forall d: nat ensures CpuAt(s', d) {
      assert CpuAt(s, d);
    }
    forall lk: Lock ensures LockAt(s', lk) {
      assert LockAt(s, lk);
    }
    ZombiesKept(s.pr, p, s'.pr[p]);
    WokenPc(s, s', p);
  }

  lemma {:induction false} SwitchStruct(s: St, p: nat)
    requires Inv(s) && CanSwitch(s, p)
    ensures Struct(AfterSwitch(s, p))
  {
    hide Waits;
    var s' := AfterSwitch(s, p);
    assert Basic(s, p);
    forall q: nat ensures Basic(s', q) {
      assert Basic(s, q);
      if q < |s.pr| && q != p { SameBasic(s, s', q); }
    }
    forall d: nat ensures CpuAt(s', d) {
      assert CpuAt(s, d);
    }
    forall lk: Lock ensures LockAt(s', lk) {
      assert LockAt(s, lk);
    }
  }

  lemma {:induction false} SwitchKeeps(s: St, p: nat)
    requires Inv(s) && CanSwitch(s, p)
    ensures Inv(AfterSwitch(s, p))
  {
    var s' := AfterSwitch(s, p);
    SwitchStruct(s, p);
    assert Basic(s, p) && Waits(s, p);
    ZombiesKept(s.pr, p, s'.pr[p]);
    WokenPc(s, s', p);
  }

  lemma {:induction false} UnlockKeeps(s: St, c: nat)
    requires Inv(s) && CanUnlock(s, c)
    ensures Inv(AfterUnlock(s, c))
  {
    var s', p := AfterUnlock(s, c), s.cpu[c].p;
    assert Basic(s, p) && Waits(s, p) && CpuAt(s, c);
    forall q: nat ensures Basic(s', q) {
      assert Basic(s, q);
      if q < |s.pr| && q != p { SameBasic(s, s', q); }
    }
    forall d: nat ensures CpuAt(s', d) {
      assert CpuAt(s, d);
    }
    forall lk: Lock ensures LockAt(s', lk) {
      assert LockAt(s, lk);
    }
    ZombiesKept(s.pr, p, s'.pr[p]);
    WokenPc(s, s', p);
  }

  lemma {:induction false} ResumeKeeps(s: St, p: nat)
    requires Inv(s) && CanResume(s, p)
    ensures Inv(AfterResume(s, p))
  {
    var s' := AfterResume(s, p);
    assert Basic(s, p) && Waits(s, p);
    KidsOf(s, p, s'.pr[p].pc);
    StructPc(s, s', p);
    ZombiesKept(s.pr, p, s'.pr[p]);
    HeldStepKept(s, s', p, s.pr[p].pc, s'.pr[p].pc);
    WokenPc(s, s', p);
  }

  lemma {:induction false} YieldKeeps(s: St, p: nat)
    requires Inv(s) && CanYield(s, p)
    ensures Inv(AfterYield(s, p))
  {
    var s' := AfterYield(s, p);
    assert Basic(s, p) && Waits(s, p);
    KidsOf(s, p, s'.pr[p].pc);
    StructPc(s, s', p);
    ZombiesKept(s.pr, p, s'.pr[p]);
    HeldStepKept(s, s', p, s.pr[p].pc, s'.pr[p].pc);
    WokenPc(s, s', p);
  }

  // ----- spinlocks and sleep -----

  lemma {:induction false} CallKeeps(s: St, p: nat, lk: Lock, job: Job)
    requires Inv(s) && CanCall(s, p, lk, job)
    ensures Inv(SetPc(s, p, Want(lk, job)))
  {
    var s' := SetPc(s, p, Want(lk, job));
    assert Basic(s, p) && Waits(s, p);
    KidsOf(s, p, s'.pr[p].pc);
    StructPc(s, s', p);
    ZombiesKept(s.pr, p, s'.pr[p]);
    HeldStepKept(s, s', p, s.pr[p].pc, s'.pr[p].pc);
    WokenPc(s, s', p);
  }

  lemma {:induction false} AcquireKeeps(s: St, p: nat)
    requires Inv(s) && CanAcquire(s, p)
    ensures Inv(AfterAcquire(s, p))
  {
    var s' := AfterAcquire(s, p);
    assert Basic(s, p) && Waits(s, p);
    KidsOf(s, p, s'.pr[p].pc);
    StructPc(s, s', p);
    ZombiesKept(s.pr, p, s'.pr[p]);
    HeldStepKept(s, s', p, s.pr[p].pc, s'.pr[p].pc);
    WokenPc(s, s', p);
  }

  lemma {:induction false} GoToSleepKeeps(s: St, p: nat)
    requires Inv(s) && WantsSleep(s, p)
    ensures Inv(AfterGoToSleep(s, p))
  {
    var s' := AfterGoToSleep(s, p);
    assert Basic(s, p) && Waits(s, p);
    KidsOf(s, p, s'.pr[p].pc);
    StructPc(s, s', p);
    ZombiesKept(s.pr, p, s'.pr[p]);
    HeldStepKept(s, s', p, s.pr[p].pc, s'.pr[p].pc);
    WokenPc(s, s', p);
  }

  lemma {:induction false} SleepReleaseKeeps(s: St, p: nat)
    requires Inv(s) && Runs(s, p) && s.pr[p].pc.SleepOwn?
    ensures Inv(AfterSleepRelease(s, p))
  {
    var s' := AfterSleepRelease(s, p);
    assert Basic(s, p) && Waits(s, p);
    KidsOf(s, p, s'.pr[p].pc);
    StructPc(s, s', p);
    ZombiesKept(s.pr, p, s'.pr[p]);
    HeldStepKept(s, s', p, s.pr[p].pc, s'.pr[p].pc);
    WokenPc(s, s', p);
  }

  lemma {:induction false} SleepMarkKeeps(s: St, p: nat)
    requires Inv(s) && Runs(s, p) && s.pr[p].pc.SleepSet?
    ensures Inv(AfterSleepMark(s, p))
  {
    var s' := AfterSleepMark(s, p);
    assert Basic(s, p) && Waits(s, p);
    KidsOf(s, p, s'.pr[p].pc);
    StructPc(s, s', p);
    ZombiesKept(s.pr, p, s'.pr[p]);
    HeldStepKept(s, s', p, s.pr[p].pc, s'.pr[p].pc);
    WokenPc(s, s', p);
  }

  /** Release the lock and return. */
  lemma {:induction false} FinishKeeps(s: St, p: nat)
    requires Inv(s) && Runs(s, p) && s.pr[p].pc.In? && (s.pr[p].pc.job.Done? || s.pr[p].pc.job.WScan?)
    ensures Inv(Leave(s, p, Out))
  {
    var s' := Leave(s, p, Out);
    assert Basic(s, p) && Waits(s, p);
    KidsOf(s, p, s'.pr[p].pc);
    StructPc(s, s', p);
    ZombiesKept(s.pr, p, s'.pr[p]);
    HeldStepKept(s, s', p, s.pr[p].pc, s'.pr[p].pc);
    WokenPc(s, s', p);
  }

  lemma {:induction false} ExitReleaseKeeps(s: St, p: nat)
    requires Inv(s) && AtJob(s, p, XRel)
    ensures Inv(Leave(s, p, ExitSw))
  {
    var s' := Leave(s, p, ExitSw);
    assert Basic(s, p) && Waits(s, p);
    KidsOf(s, p, s'.pr[p].pc);
    StructPc(s, s', p);
    ZombiesKept(s.pr, p, s'.pr[p]);
    HeldStepKept(s, s', p, s.pr[p].pc, s'.pr[p].pc);
    WokenPc(s, s', p);
  }

  lemma {:induction false} TakeSleepKeeps(s: St, p: nat)
    requires Inv(s) && CanTakeSleep(s, p)
    ensures Inv(AfterTakeSleep(s, p))
  {
    var s' := AfterTakeSleep(s, p);
    assert Basic(s, p) && Waits(s, p);
    KidsOf(s, p, s'.pr[p].pc);
    StructPc(s, s', p);
    ZombiesKept(s.pr, p, s'.pr[p]);
    HeldStepKept(s, s', p, s.pr[p].pc, s'.pr[p].pc);
    WokenPc(s, s', p);
  }

  /** A sleeping process becomes runnable, and kill may set its flag. */
  function Roused(s: St, i: nat, killed: bool): (r: St)
    requires i < |s.pr|
  {
    s.(pr := s.pr[i := s.pr[i].(state := if s.pr[i].state == SLEEPING then RUNNABLE else s.pr[i].state,
                                killed := killed)])
  }

  lemma {:induction false} RousedKeeps(s: St, i: nat, killed: bool)
    requires Inv(s) && i < |s.pr| && !OwnLocked(s.pr[i])
    ensures Inv(Roused(s, i, killed))
  {
    var s' := Roused(s, i, killed);
    assert Basic(s, i) && Waits(s, i);
    KidsOf(s, i, s'.pr[i].pc);
    StructPc(s, s', i);
    ZombiesKept(s.pr, i, s'.pr[i]);
    HeldStepKept(s, s', i, s.pr[i].pc, s'.pr[i].pc);
    WokenPc(s, s', i);
  }

  // ----- the log -----

  lemma {:induction false} BeginOpKeeps(s: St, p: nat)
    requires Inv(s) && AtJob(s, p, BOCheck) && !LogBusy(s)
    ensures Inv(AfterBeginOp(s, p))
  {
    var s' := AfterBeginOp(s, p);
    assert Basic(s, p) && Waits(s, p);
    KidsOf(s, p, s'.pr[p].pc);
    StructPc(s, s', p);
    ZombiesKept(s.pr, p, s'.pr[p]);
    HeldStepKept(s, s', p, s.pr[p].pc, s'.pr[p].pc);
    WokenPc(s, s', p);
  }

  /** The last operation ends: it commits. */
  lemma {:induction false} LastEndOpKeeps(s: St, p: nat)
    requires Inv(s) && AtJob(s, p, EODec) && s.outstanding == 1
    ensures Inv(AfterEndOp(s, p))
  {
    var s' := AfterEndOp(s, p);
    assert Basic(s, p) && Waits(s, p);
    KidsOf(s, p, s'.pr[p].pc);
    StructPc(s, s', p);
    ZombiesKept(s.pr, p, s'.pr[p]);
    HeldStepKept(s, s', p, s.pr[p].pc, s'.pr[p].pc);
    WokenPc(s, s', p);
  }

  lemma {:induction false} CommitOverKeeps(s: St, p: nat)
    requires Inv(s) && InCommit(s, p)
    ensures Inv(AfterCommitOver(s, p))
  {
    var s' := AfterCommitOver(s, p);
    assert Basic(s, p) && Waits(s, p);
    KidsOf(s, p, s'.pr[p].pc);
    StructPc(s, s', p);
    ZombiesKept(s.pr, p, s'.pr[p]);
    HeldStepKept(s, s', p, s.pr[p].pc, s'.pr[p].pc);
    WokenPc(s, s', p);
  }

  /** commit empties the log while committing is set; log_write fills it. */
  lemma {:induction false} LogLengthKeeps(s: St, p: nat, n: nat)
    requires Inv(s) && Runs(s, p) && ((InCommit(s, p) && n == 0) || n == s.n + 1)
    ensures Inv(s.(n := n))
  {
    var s' := s.(n := n);
    assert Basic(s, p) && Waits(s, p);
    assert s.pr[p := s'.pr[p]] == s.pr;
    KidsOf(s, p, s'.pr[p].pc);
    StructPc(s, s', p);
    ZombiesKept(s.pr, p, s'.pr[p]);
    HeldStepKept(s, s', p, s.pr[p].pc, s'.pr[p].pc);
    WokenPc(s, s', p);
  }
}
