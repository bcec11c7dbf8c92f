/** The steps that end waits or change who is whose child keep the invariant:
    wakeup, releasesleep, end_op, exit, reparent, wait and fork. */
module ProcLife {
  import opened Bytes
  import opened ProcMachine
  import opened ProcInvariant
  import opened ProcFrame
  import opened ProcSteps

  // ----- wakeup -----

  /** wakeup goes on: at process j + 1, or back in its caller after the last one. */
  function WakeOn(s: St, p: nat): (r: St)
    requires Runs(s, p) && s.pr[p].pc.Waking?
  {
    var pc := s.pr[p].pc;
    SetPc(s, p, if pc.j >= |s.pr| then In(pc.lk, pc.job) else Waking(pc.lk, pc.ch, pc.j + 1, pc.job))
  }

  lemma {:induction false} WakeOnWaits(s: St, p: nat, q: nat)
    requires Inv(s) && Runs(s, p) && s.pr[p].pc.Waking? && NoNewZombie(s.pr, WakeOn(s, p).pr)
    requires s.pr[p].pc.j < |s.pr| ==> !Sleeps(s.pr[s.pr[p].pc.j], s.pr[p].pc.ch)
    ensures Waits(WakeOn(s, p), q)
  {
    hide Shape, PlaceAt, MakerAt, ParentAt, CtxFits;
    assert Basic(s, p) && Waits(s, p) && Waits(s, q) && Basic(s, q);
  }

  /** wakeup steps over process j, which does not sleep on the channel; when it has
      been through the whole table, whoever still sleeps must wait. */
  lemma {:induction false} WakeOnKeeps(s: St, p: nat)
    requires Inv(s) && Runs(s, p) && s.pr[p].pc.Waking?
    requires s.pr[p].pc.j < |s.pr| ==> !Sleeps(s.pr[s.pr[p].pc.j], s.pr[p].pc.ch)
    ensures Inv(WakeOn(s, p))
  {
    hide Waits;
    var s' := WakeOn(s, p);
    assert Basic(s, p);
    KidsOf(s, p, s'.pr[p].pc);
    StructPc(s, s', p);
    ZombiesKept(s.pr, p, s'.pr[p]);
    forall q: nat ensures Waits(s', q) {
      WakeOnWaits(s, p, q);
    }
  }

  lemma {:induction false} WakeKeeps(s: St, p: nat)
    requires Inv(s) && CanWake(s, p)
    ensures Inv(AfterWake(s, p))
  {
    var pc := s.pr[p].pc;
    assert Basic(s, p);
    if pc.j >= |s.pr| {
      WakeOnKeeps(s, p);
    } else if pc.j != p && s.pr[pc.j].state == SLEEPING && s.pr[pc.j].chan == Some(pc.ch) {
      assert Basic(s, pc.j);
      RousedKeeps(s, pc.j, s.pr[pc.j].killed);
      WakeOnKeeps(Roused(s, pc.j, s.pr[pc.j].killed), p);
    } else {
      assert Basic(s, pc.j);
      WakeOnKeeps(s, p);
    }
  }

  // ----- ending a wait -----

  /** The thread of p, holding the lock of ch, starts wakeup(ch); the wait on ch may
      be over, no other is. */
  ghost predicate Starts(s: St, s': St, p: nat, ch: Chan)
    requires p < |s.pr| == |s'.pr|
  {
    && s.pr[p].pc.In? && s.pr[p].pc.lk == LockOf(ch) && s'.pr[p].pc == Waking(LockOf(ch), ch, 0, Done)
    && s'.held == s.held
    && NoNewZombie(s.pr, s'.pr)
    && (forall l :: l in s.locked && SleepChan(l) != ch ==> l in s'.locked && s'.locked[l] == s.locked[l])
    && (ch != LogChan ==> LogBusy(s) ==> LogBusy(s'))
    && (s.committer.Some? && s.committer != Some(p) ==> s'.committer == s.committer)
    && (s'.pr[p].ctx.Committing? ==> s'.committer == Some(p))
  }

  lemma {:induction false} StartsWoken(s: St, s': St, p: nat, ch: Chan)
    requires Inv(s) && p < |s.pr| == |s'.pr| && s'.pr == s.pr[p := s'.pr[p]] && Starts(s, s', p, ch) && !ch.Child?
    requires ch.SleepChan? && ch.l in s.locked ==> s.locked[ch.l] == p
    requires s'.committer.Some? ==> s'.outstanding == 0
    ensures Woken(s')
  {
    hide Shape, PlaceAt, MakerAt, ParentAt;
    assert Basic(s, p) && Waits(s, p);
    forall q: nat ensures Waits(s', q) {
      assert Waits(s, q) && Basic(s, q);
    }
  }

  lemma {:induction false} FreeSleepKeeps(s: St, p: nat)
    requires Inv(s) && CanFreeSleep(s, p)
    ensures Inv(AfterFreeSleep(s, p))
  {
    var s' := AfterFreeSleep(s, p);
    assert Basic(s, p) && Waits(s, p);
    KidsOf(s, p, s'.pr[p].pc);
    StructPc(s, s', p);
    ZombiesKept(s.pr, p, s'.pr[p]);
    StartsWoken(s, s', p, SleepChan(s.pr[p].pc.lk.l));
  }

  lemma {:induction false} EndOpKeeps(s: St, p: nat)
    requires Inv(s) && AtJob(s, p, EODec) && s.outstanding > 0
    ensures Inv(AfterEndOp(s, p))
  {
    if s.outstanding == 1 {
      LastEndOpKeeps(s, p);
    } else {
      var s' := AfterEndOp(s, p);
      assert Basic(s, p) && Waits(s, p);
      KidsOf(s, p, s'.pr[p].pc);
      StructPc(s, s', p);
      ZombiesKept(s.pr, p, s'.pr[p]);
      StartsWoken(s, s', p, LogChan);
    }
  }

  lemma {:induction false} CommitDoneKeeps(s: St, p: nat)
    requires Inv(s) && AtJob(s, p, CDone)
    ensures Inv(AfterCommitDone(s, p))
  {
    var s' := AfterCommitDone(s, p);
    assert Basic(s, p) && Waits(s, p);
    KidsOf(s, p, s'.pr[p].pc);
    StructPc(s, s', p);
    ZombiesKept(s.pr, p, s'.pr[p]);
    StartsWoken(s, s', p, LogChan);
  }

  // ----- exit -----

  /** Only the holder of wait_lock is at a place in wait or exit that needs it. */
  lemma {:induction false} OnlyHolder(s: St, p: nat, q: nat)
    requires Struct(s) && p < |s.pr| && q < |s.pr| && HoldsAny(s.pr[p].pc) && HoldsAny(s.pr[q].pc)
      && s.pr[p].pc.lk == s.pr[q].pc.lk
    ensures p == q
  {
    assert Basic(s, p) && Basic(s, q);
  }

  /** exit makes the process a zombie; its parent is awake. */
  lemma {:induction false} ExitKeeps(s: St, p: nat)
    requires Inv(s) && AtJob(s, p, XLock)
    ensures Inv(AfterExit(s, p))
  {
    var s' := AfterExit(s, p);
    assert Basic(s, p) && Waits(s, p);
    KidsOf(s, p, s'.pr[p].pc);
    StructPc(s, s', p);
    forall q: nat, k: nat ensures ZombieOf(s'.pr, q, k) ==>
      ZombieOf(s.pr, q, k) || (k == p && s.pr[p].parent == Some(q)) {
    }
    forall q: nat ensures Waits(s', q) {
      assert Waits(s, q) && Basic(s, q);
      if q < |s.pr| && HoldsAny(s.pr[q].pc) && s.pr[q].pc.lk == WaitLock { OnlyHolder(s, p, q); }
    }
  }

  /** exit goes on to the next process, or is through with them. */
  lemma {:induction false} ReparentSkipKeeps(s: St, p: nat, pc: Pc)
    requires Inv(s) && CanReparent(s, p)
    requires var i := s.pr[p].pc.job.i;
      if i < |s.pr| then s.pr[i].parent != Some(p) && pc == In(s.pr[p].pc.lk, XRep(i + 1))
      else pc == if s.pr[p].parent.Some? then Waking(s.pr[p].pc.lk, Child(s.pr[p].parent.value), 0, XLock)
        else In(s.pr[p].pc.lk, XLock)
    ensures Inv(SetPc(s, p, pc))
  {
    var s' := SetPc(s, p, pc);
    assert Basic(s, p) && Waits(s, p);
    forall q: nat ensures KidKept(s, p, pc, q) {
      assert Basic(s, q);
    }
    StructPc(s, s', p);
    ZombiesKept(s.pr, p, s'.pr[p]);
    HeldStepKept(s, s', p, s.pr[p].pc, s'.pr[p].pc);
    WokenPc(s, s', p);
  }

  /** Process i gets a new parent. */
  function WithParent(s: St, i: nat, q: nat): (r: St)
    requires i < |s.pr|
  {
    s.(pr := s.pr[i := s.pr[i].(parent := Some(q))])
  }

  lemma {:induction false} ParentStruct(s: St, i: nat, q: nat)
    requires Struct(s) && i < |s.pr| && q < |s.pr| && s.pr[i].parent.Some? && MayHave(s.pr[q].pc, i)
    ensures Struct(WithParent(s, i, q))
  {
    hide JobsFit, CtxFits;
    var s' := WithParent(s, i, q);
    assert Basic(s, i);
    forall k: nat ensures Basic(s', k) {
      assert Basic(s, k);
    }
    forall c: nat ensures CpuAt(s', c) {
      assert CpuAt(s, c);
    }
    forall lk: Lock ensures LockAt(s', lk) {
      assert LockAt(s, lk);
    }
  }

  lemma {:induction false} ReparentStruct(s: St, p: nat, i: nat)
    requires Inv(s) && CanReparent(s, p) && s.pr[p].pc.job.i == i < |s.pr| && s.pr[i].parent == Some(p)
    ensures Struct(AfterReparent(s, p))
  {
    var s', s1 := AfterReparent(s, p), WithParent(s, i, INIT);
    assert Basic(s, p) && Basic(s, INIT);
    ParentStruct(s, i, INIT);
    forall q: nat ensures KidKept(s1, p, s'.pr[p].pc, q) {
      assert Basic(s1, q);
    }
    StructPc(s1, s', p);
  }

  /** A child goes to init, which is going to be woken. */
  lemma {:induction false} ReparentWoken(s: St, p: nat, i: nat)
    requires Inv(s) && CanReparent(s, p) && s.pr[p].pc.job.i == i < |s.pr| && s.pr[i].parent == Some(p)
    ensures Woken(AfterReparent(s, p))
  {
    forall q: nat ensures Waits(AfterReparent(s, p), q) {
      ReparentWaits(s, p, i, q);
    }
  }

  lemma {:induction false} ReparentWaits(s: St, p: nat, i: nat, q: nat)
    requires Inv(s) && CanReparent(s, p) && s.pr[p].pc.job.i == i < |s.pr| && s.pr[i].parent == Some(p)
    ensures Waits(AfterReparent(s, p), q)
  {
    hide Shape, PlaceAt, MakerAt, CtxFits;
    var s' := AfterReparent(s, p);
    assert Basic(s, p) && Waits(s, p) && Waits(s, q) && Basic(s, q);
    forall x: nat, k: nat ensures ZombieOf(s'.pr, x, k) ==> ZombieOf(s.pr, x, k) || x == INIT {
    }
    if q < |s.pr| && HoldsAny(s.pr[q].pc) && s.pr[q].pc.lk == WaitLock { OnlyHolder(s, p, q); }
  }

  lemma {:induction false} ReparentKeeps(s: St, p: nat)
    requires Inv(s) && CanReparent(s, p)
    ensures Inv(AfterReparent(s, p))
  {
    var i := s.pr[p].pc.job.i;
    if i < |s.pr| && s.pr[i].parent == Some(p) {
      ReparentStruct(s, p, i);
      ReparentWoken(s, p, i);
    } else {
      ReparentSkipKeeps(s, p, AfterReparent(s, p).pr[p].pc);
    }
  }

  // ----- wait -----

  /** wait goes on to the next process: this one is not a zombie child. */
  lemma {:induction false} ScanSkipKeeps(s: St, p: nat, kids: bool)
    requires Inv(s) && CanScan(s, p) && !ZombieOf(s.pr, p, s.pr[p].pc.job.i)
    ensures Inv(SetPc(s, p, In(s.pr[p].pc.lk, WScan(s.pr[p].pc.job.i + 1, kids))))
  {
    var s' := SetPc(s, p, In(s.pr[p].pc.lk, WScan(s.pr[p].pc.job.i + 1, kids)));
    assert Basic(s, p) && Waits(s, p);
    KidsOf(s, p, s'.pr[p].pc);
    StructPc(s, s', p);
    ZombiesKept(s.pr, p, s'.pr[p]);
    HeldStepKept(s, s', p, s.pr[p].pc, s'.pr[p].pc);
    WokenPc(s, s', p);
  }

  function Freed(s: St, i: nat): (r: St)
    requires i < |s.pr|
  {
    s.(pr := s.pr[i := FREE_PROC])
  }

  /** Nothing refers to a zombie that is off its CPU, so its slot may be reused. */
  lemma {:induction false} FreedKeeps(s: St, i: nat)
    requires Inv(s) && i < |s.pr| && s.pr[i].state == ZOMBIE && !OwnLocked(s.pr[i])
    ensures Inv(Freed(s, i))
  {
    var s' := Freed(s, i);
    assert Basic(s, i) && s.pr[i].pc.Dead? && s.pr[i].place.Nowhere?;
    forall q: nat ensures Basic(s', q) {
      assert Basic(s, q);
    }
    forall c: nat ensures CpuAt(s', c) {
      assert CpuAt(s, c);
    }
    forall lk: Lock ensures LockAt(s', lk) {
      assert LockAt(s, lk);
    }
    ZombiesKept(s.pr, i, FREE_PROC);
    forall lk: Lock ensures HeldKept(s, s', i, lk) {
    }
    WokenPc(s, s', i);
  }

  lemma {:induction false} ScanKeeps(s: St, p: nat, give: bool)
    requires Inv(s) && CanScan(s, p)
    ensures Inv(AfterScan(s, p, give))
  {
    var i := s.pr[p].pc.job.i;
    assert Basic(s, p);
    if s.pr[i].parent != Some(p) {
      ScanSkipKeeps(s, p, s.pr[p].pc.job.kids);
    } else if s.pr[i].state != ZOMBIE {
      ScanSkipKeeps(s, p, true);
    } else if give {
      FreedKeeps(s, i);
      FinishKeeps(Freed(s, i), p);
    } else {
      FinishKeeps(s, p);
    }
  }

  // ----- fork -----

  /** The thread is not in any of these functions, or in fork with child i. */
  predicate ForkPc(r: Proc, i: nat) { r.pc.Out? && (r.ctx.Plain? || ForkOf(r.ctx) == Some(i)) }

  /** fork changes p, which holds no lock, and i, which nobody runs. */
  ghost predicate Forks(s: St, s': St, p: nat, i: nat) {
    && p < |s.pr| == |s'.pr| && i < |s.pr| && p != i && s' == s.(pr := s'.pr)
    && s'.pr == s.pr[i := s'.pr[i]][p := s'.pr[p]]
    && ForkPc(s.pr[p], i) && ForkPc(s'.pr[p], i) && s'.pr[p].place == s.pr[p].place
    && s.pr[i].pc.NoThread? && (s'.pr[i].pc.NoThread? || s'.pr[i].pc.Fresh?) && s'.pr[i].place.Nowhere?
    && s'.pr[i].ctx.Plain?
    && (s.pr[i].maker.None? || s.pr[i].maker == Some(p))
    && s'.pr[p].state != ZOMBIE && s'.pr[i].state != ZOMBIE
  }

  lemma {:induction false} ForkOther(s: St, s': St, p: nat, i: nat, q: nat)
    requires Struct(s) && Forks(s, s', p, i) && q < |s.pr| && q != p && q != i
    ensures Basic(s', q)
  {
    assert Basic(s, q) && Basic(s, p) && Basic(s, i);
    SameBasic(s, s', q);
  }

  lemma {:induction false} ForkStruct(s: St, s': St, p: nat, i: nat)
    requires Struct(s) && Forks(s, s', p, i) && Basic(s', p) && Basic(s', i)
    ensures Struct(s')
  {
    assert Basic(s, p) && Basic(s, i);
    forall q: nat ensures Basic(s', q) {
      if q < |s.pr| && q != p && q != i { ForkOther(s, s', p, i, q); }
    }
    forall c: nat ensures CpuAt(s', c) {
      assert CpuAt(s, c);
    }
    forall lk: Lock ensures LockAt(s', lk) {
      assert LockAt(s, lk);
    }
  }

  lemma {:induction false} ForkWaits(s: St, s': St, p: nat, i: nat, q: nat)
    requires Inv(s) && Forks(s, s', p, i) && NoNewZombie(s.pr, s'.pr) && q < |s.pr| && q != p && q != i
    ensures Waits(s', q)
  {
    hide Shape, PlaceAt, MakerAt, ParentAt;
    assert Waits(s, q) && Basic(s, q);
  }

  lemma {:induction false} ForkWoken(s: St, s': St, p: nat, i: nat)
    requires Inv(s) && Forks(s, s', p, i)
    ensures Woken(s')
  {
    ZombiesKept2(s.pr, i, s'.pr[i], p, s'.pr[p]);
    forall q: nat ensures Waits(s', q) {
      if q < |s.pr| && q != p && q != i { ForkWaits(s, s', p, i, q); }
    }
  }

  lemma {:induction false} ForkAllocKeeps(s: St, p: nat, i: nat)
    requires Inv(s) && CanForkAlloc(s, p, i)
    ensures Inv(AfterForkAlloc(s, p, i))
  {
    hide Waits;
    var s' := AfterForkAlloc(s, p, i);
    assert Basic(s, p) && Basic(s, i);
    ForkStruct(s, s', p, i);
    ForkWoken(s, s', p, i);
  }

  lemma {:induction false} ForkFailKeeps(s: St, p: nat)
    requires Inv(s) && InFork(s, p)
    ensures Inv(AfterForkFail(s, p))
  {
    hide Waits;
    var s', i := AfterForkFail(s, p), s.pr[p].ctx.i;
    assert Basic(s, p) && Basic(s, i);
    ForkStruct(s, s', p, i);
    ForkWoken(s, s', p, i);
  }

  lemma {:induction false} ForkParentKeeps(s: St, p: nat)
    requires Inv(s) && InFork(s, p) && WaitLock !in s.held
    ensures Inv(AfterForkParent(s, p))
  {
    hide Waits;
    var s', i := AfterForkParent(s, p), s.pr[p].ctx.i;
    assert Basic(s, p) && Basic(s, i);
    ForkStruct(s, s', p, i);
    ForkWoken(s, s', p, i);
  }

  lemma {:induction false} ForkGoKeeps(s: St, p: nat)
    requires Inv(s) && CanForkGo(s, p)
    ensures Inv(AfterForkGo(s, p))
  {
    hide Waits;
    var s', i := AfterForkGo(s, p), s.pr[p].ctx.i;
    assert Basic(s, p) && Basic(s, i);
    ForkStruct(s, s', p, i);
    ForkWoken(s, s', p, i);
  }
}
