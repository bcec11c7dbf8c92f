/** Changes to one process, and what they leave alone: the pieces that the steps
    of the process machine are made of. */
module ProcFrame {
  import opened Bytes
  import opened ProcMachine
  import opened ProcInvariant

  predicate HoldsAny(pc: Pc) { pc.In? || pc.Waking? || pc.SleepOwn? }

  /** The thread of p moves from pc to pc' and takes or drops at most the lock that
      goes with them. */
  predicate HeldStep(held: map<Lock, nat>, held': map<Lock, nat>, p: nat, pc: Pc, pc': Pc) {
    if HoldsAny(pc) && HoldsAny(pc') then held' == held && pc'.lk == pc.lk
    else if HoldsAny(pc) then held' == held - {pc.lk}
    else if HoldsAny(pc') then pc'.lk !in held && held' == held[pc'.lk := p]
    else held' == held
  }

  lemma {:induction false} SameBasic(s: St, s': St, q: nat)
    requires q < |s.pr| == |s'.pr| && Basic(s, q) && s'.pr[q] == s.pr[q] && Links(s', q)
    ensures Basic(s', q)
  {
  }

  /** What others see of p stays: parent, maker, place, child being made. */
  predicate SameLinks(r: Proc, r': Proc) {
    && r'.parent == r.parent && r'.maker == r.maker && r'.place == r.place && ForkOf(r'.ctx) == ForkOf(r.ctx)
    && (r'.ctx.ForkRun? ==> r.ctx.ForkRun?) && (r.pc.NoThread? ==> r'.pc.NoThread?)
  }

  predicate KidKept(s: St, p: nat, pc: Pc, q: nat) {
    q < |s.pr| && s.pr[q].parent == Some(p) ==> MayHave(pc, q)
  }

  /** Here the thread of p may still have the children it has. */
  ghost predicate KidsKept(s: St, p: nat, pc: Pc) {
    forall q: nat {:trigger KidKept(s, p, pc, q)} :: KidKept(s, p, pc, q)
  }

  /** One thread moves on. */
  lemma {:induction false} StructPc(s: St, s': St, p: nat)
    requires Struct(s) && p < |s.pr| && |s'.pr| == |s.pr| && s'.pr == s.pr[p := s'.pr[p]] && s'.cpu == s.cpu
    requires Shape(s'.pr[p]) && PcFits(s'.pr[p], p) && SameLinks(s.pr[p], s'.pr[p]) && KidsKept(s, p, s'.pr[p].pc)
    requires HeldStep(s.held, s'.held, p, s.pr[p].pc, s'.pr[p].pc)
    ensures Struct(s')
  {
    assert Basic(s, p);
    forall q: nat ensures Basic(s', q) {
      if q < |s.pr| {
        assert Basic(s, q);
        StructOthers(s, s', p, q);
      }
    }
    forall c: nat ensures CpuAt(s', c) {
      assert CpuAt(s, c);
    }
    forall lk: Lock ensures LockAt(s', lk) {
      assert LockAt(s, lk);
    }
  }

  lemma {:induction false} StructOthers(s: St, s': St, p: nat, q: nat)
    requires Struct(s) && p < |s.pr| && |s'.pr| == |s.pr| && s'.pr == s.pr[p := s'.pr[p]] && s'.cpu == s.cpu
      && q < |s.pr|
    requires SameLinks(s.pr[p], s'.pr[p]) && KidsKept(s, p, s'.pr[p].pc)
      && HeldStep(s.held, s'.held, p, s.pr[p].pc, s'.pr[p].pc)
    ensures Links(s', q)
  {
    assert Basic(s, q) && Basic(s, p) && KidKept(s, p, s'.pr[p].pc, q);
  }

  lemma {:induction false} KidsOf(s: St, p: nat, pc: Pc)
    requires Struct(s) && p < |s.pr|
    requires forall q: nat :: q < |s.pr| && MayHave(s.pr[p].pc, q) ==> MayHave(pc, q)
    ensures KidsKept(s, p, pc)
  {
    forall q: nat ensures KidKept(s, p, pc, q) {
      assert Basic(s, q);
    }
  }

  // ----- waiting -----

  predicate HeldKept(s: St, s': St, p: nat, lk: Lock) {
    lk in s.held && s.held[lk] != p ==> lk in s'.held && s'.held[lk] == s.held[lk]
  }

  /** The thread of p moves on without ending a wait. */
  ghost predicate Quiet(s: St, s': St, p: nat)
    requires p < |s.pr| == |s'.pr|
  {
    && NoNewZombie(s.pr, s'.pr)
    && (forall lk: Lock {:trigger HeldKept(s, s', p, lk)} :: HeldKept(s, s', p, lk))
    && (s.pr[p].pc.Waking? ==>
          && s'.pr[p].pc.Waking? && s'.pr[p].pc.ch == s.pr[p].pc.ch && s'.pr[p].pc.j <= s.pr[p].pc.j
          && LockOf(s.pr[p].pc.ch) in s'.held && s'.held[LockOf(s.pr[p].pc.ch)] == p)
    && (forall l :: l in s.locked ==> l in s'.locked && (s.locked[l] != p ==> s'.locked[l] == s.locked[l]))
    && (LogBusy(s) ==> LogBusy(s'))
    && (s.committer.Some? && s.committer != Some(p) ==> s'.committer == s.committer)
    && (Sleeps(s'.pr[p], Child(p)) ==> Sleeps(s.pr[p], Child(p)) || (WaitLock in s.held && s.held[WaitLock] == p))
  }

  lemma {:induction false} WokenPc(s: St, s': St, p: nat)
    requires Inv(s) && p < |s.pr| && |s'.pr| == |s.pr| && s'.pr == s.pr[p := s'.pr[p]]
    requires Quiet(s, s', p) && Waits(s', p) && (s'.committer.Some? ==> s'.outstanding == 0)
    ensures Woken(s')
  {
    forall q: nat ensures Waits(s', q) {
      if q < |s.pr| && q != p {
        assert Waits(s, q) && Basic(s, q);
        WokenOther(s, s', p, q);
      }
    }
  }

  lemma {:induction false} WokenOther(s: St, s': St, p: nat, q: nat)
    requires Inv(s) && p < |s.pr| && |s'.pr| == |s.pr| && s'.pr == s.pr[p := s'.pr[p]]
    requires Quiet(s, s', p) && q < |s.pr| && q != p
    ensures Waits(s', q)
  {
    assert Waits(s, q) && Basic(s, q);
    if SleepPc(s.pr[q].pc) {
      var lk := LockOf(s.pr[q].pc.ch);
      assert HeldKept(s, s', p, lk) && LockAt(s, lk);
    }
  }

  lemma {:induction false} HeldStepKept(s: St, s': St, p: nat, pc: Pc, pc': Pc)
    requires Struct(s) && p < |s.pr| && s.pr[p].pc == pc && HeldStep(s.held, s'.held, p, pc, pc')
    ensures forall lk: Lock {:trigger HeldKept(s, s', p, lk)} :: HeldKept(s, s', p, lk)
  {
    assert Basic(s, p);
    forall lk: Lock ensures HeldKept(s, s', p, lk) {
    }
  }
}
