/** Whom wait waits for: its scan finds out exactly whether the caller has children,
    and nobody waits for a child without having one. */
module ProcWait {
  import opened Bytes
  import opened ProcMachine
  import opened ProcInvariant
  import opened ProcFrame
  import ProcTheorems

  predicate ChildOf(pr: seq<Proc>, p: nat, k: nat) { k < |pr| && pr[k].parent == Some(p) }

  /** p has a child among the first n processes. */
  ghost predicate HasChild(pr: seq<Proc>, p: nat, n: nat) {
    exists k: nat {:trigger ChildOf(pr, p, k)} :: k < n && ChildOf(pr, p, k)
  }

  /** wait looks at the table only, havekids says whether a child has come by; a sleeper
      in wait has a child. */
  ghost predicate PcKids(pr: seq<Proc>, p: nat, pc: Pc) {
    && (pc.In? && pc.job.WScan? ==> pc.job.i <= |pr| && (pc.job.kids <==> HasChild(pr, p, pc.job.i)))
    && (Base(pc).Want? && Base(pc).job.WScan? ==> !Base(pc).job.kids)
    && (SleepPc(pc) && pc.ch.Child? ==> HasChild(pr, p, |pr|))
  }

  /** A child that fork is still making has no parent. */
  predicate NoParentYet(pr: seq<Proc>, ctx: Ctx) {
    ctx.Forking? && ctx.i < |pr| ==> pr[ctx.i].parent.None?
  }

  ghost predicate KidsAt(s: St, p: nat) {
    p < |s.pr| ==> PcKids(s.pr, p, s.pr[p].pc) && NoParentYet(s.pr, s.pr[p].ctx)
  }

  ghost predicate Kids(s: St) { forall p: nat {:trigger KidsAt(s, p)} :: KidsAt(s, p) }

  predicate SameParentAt(pr: seq<Proc>, pr': seq<Proc>, k: nat) {
    k < |pr| && k < |pr'| ==> pr'[k].parent == pr[k].parent
  }

  /** No parent changes. */
  ghost predicate SameParents(pr: seq<Proc>, pr': seq<Proc>) {
    |pr'| == |pr| && forall k: nat {:trigger SameParentAt(pr, pr', k)} :: SameParentAt(pr, pr', k)
  }

  lemma {:induction false} SameKids(pr: seq<Proc>, pr': seq<Proc>, q: nat, pc: Pc, ctx: Ctx)
    requires SameParents(pr, pr') && PcKids(pr, q, pc) && NoParentYet(pr, ctx)
    ensures PcKids(pr', q, pc) && NoParentYet(pr', ctx)
  {
    forall k: nat ensures ChildOf(pr', q, k) <==> ChildOf(pr, q, k) {
      assert SameParentAt(pr, pr', k);
    }
    if ctx.Forking? { assert SameParentAt(pr, pr', ctx.i); }
  }

  predicate StaysAt(s: St, s': St, p: nat, q: nat) {
    q < |s.pr| && q < |s'.pr| && q != p ==>
      (s'.pr[q].pc == s.pr[q].pc || s'.pr[q].pc.Fresh?) && s'.pr[q].ctx == s.pr[q].ctx
  }

  /** All have the parents they had; only the thread of p moves, or one is new. */
  ghost predicate Moves(s: St, s': St, p: nat) {
    SameParents(s.pr, s'.pr) && forall q: nat {:trigger StaysAt(s, s', p, q)} :: StaysAt(s, s', p, q)
  }

  lemma {:induction false} MovesKids(s: St, s': St, p: nat)
    requires Kids(s) && Moves(s, s', p) && p < |s.pr|
    requires PcKids(s.pr, p, s'.pr[p].pc) && NoParentYet(s.pr, s'.pr[p].ctx)
    ensures Kids(s')
  {
    forall q: nat ensures PcKids(s.pr, q, Fresh) {
    }
    hide PcKids, NoParentYet;
    forall q: nat ensures KidsAt(s', q) {
      assert KidsAt(s, q) && StaysAt(s, s', p, q);
      if q < |s.pr| { SameKids(s.pr, s'.pr, q, s'.pr[q].pc, s'.pr[q].ctx); }
    }
  }

  /** One thread moves. */
  lemma {:induction false} OneMoves(s: St, s': St, p: nat)
    requires p < |s.pr| == |s'.pr| && s'.pr == s.pr[p := s'.pr[p]] && s'.pr[p].parent == s.pr[p].parent
    ensures Moves(s, s', p)
  {
  }

  lemma {:induction false} CpuKids(s: St, a: CpuStep)
    requires Inv(s) && Kids(s) && CpuEnabled(s, a)
    ensures Kids(DoCpu(s, a))
  {
    var s' := DoCpu(s, a);
    var p := if a.Unlock? then s.cpu[a.c].p else a.p;
    assert Basic(s, p) && KidsAt(s, p);
    hide Waits, Links, Struct, Woken, Moves, HasChild;
    OneMoves(s, s', p);
    MovesKids(s, s', p);
  }

  lemma {:induction false} LogKids(s: St, a: LogStep)
    requires Inv(s) && Kids(s) && LogEnabled(s, a)
    ensures Kids(DoLog(s, a))
  {
    hide Waits, Links, Struct, Woken, Moves, HasChild;
    var s' := DoLog(s, a);
    assert KidsAt(s, a.p);
    assert s.pr[a.p := s.pr[a.p]] == s.pr;
    OneMoves(s, s', a.p);
    MovesKids(s, s', a.p);
  }

  lemma {:induction false} NoneBefore(pr: seq<Proc>, p: nat)
    ensures !HasChild(pr, p, 0)
  {
  }

  lemma {:induction false} WakeMoves(s: St, p: nat)
    requires CanWake(s, p)
    ensures Moves(s, AfterWake(s, p), p)
  {
  }

  lemma {:induction false} SyncKids(s: St, a: SyncStep)
    requires Inv(s) && Kids(s) && SyncEnabled(s, a)
    ensures Kids(DoSync(s, a))
  {
    var s', p := DoSync(s, a), if a.Kill? then a.i else a.p;
    assert Basic(s, p) && KidsAt(s, p);
    SyncPc(s, a, p);
    hide Waits, Links, Struct, Woken, Moves, PcKids, NoParentYet;
    if a.Wake? { WakeMoves(s, p); } else { OneMoves(s, s', p); }
    MovesKids(s, s', p);
  }

  lemma {:induction false} SyncPc(s: St, a: SyncStep, p: nat)
    requires SyncEnabled(s, a) && p == if a.Kill? then a.i else a.p
    requires PcFits(s.pr[p], p) && PcKids(s.pr, p, s.pr[p].pc) && NoParentYet(s.pr, s.pr[p].ctx)
    ensures PcKids(s.pr, p, DoSync(s, a).pr[p].pc) && NoParentYet(s.pr, DoSync(s, a).pr[p].ctx)
  {
    hide HasChild, CtxFits;
    NoneBefore(s.pr, p);
  }

  // ----- wait, exit and fork -----

  lemma {:induction false} ScanNext(pr: seq<Proc>, p: nat, i: nat)
    requires i < |pr|
    ensures HasChild(pr, p, i + 1) <==> HasChild(pr, p, i) || pr[i].parent == Some(p)
  {
    assert ChildOf(pr, p, i) <==> pr[i].parent == Some(p);
  }

  /** wait goes on, or returns without freeing a slot. */
  lemma {:induction false} ScanSkipKids(s: St, p: nat, give: bool)
    requires Inv(s) && Kids(s) && CanScan(s, p) && !(give && ZombieOf(s.pr, p, s.pr[p].pc.job.i))
    ensures Kids(AfterScan(s, p, give))
  {
    var s', i := AfterScan(s, p, give), s.pr[p].pc.job.i;
    assert KidsAt(s, p);
    hide Waits, Links, Struct, Woken, Moves, HasChild;
    ScanNext(s.pr, p, i);
    OneMoves(s, s', p);
    MovesKids(s, s', p);
  }

  /** No thread but p is where wait_lock is held, and no other fork makes i. */
  predicate AsideAt(s: St, s': St, p: nat, i: nat, q: nat) {
    q < |s.pr| && q < |s'.pr| && q != p ==>
      && (q != i ==> s'.pr[q].pc == s.pr[q].pc && s'.pr[q].ctx == s.pr[q].ctx && s'.pr[q].parent == s.pr[q].parent)
      && (HoldsAny(s.pr[q].pc) ==> s.pr[q].pc.lk != WaitLock) && (s.pr[q].ctx.Forking? ==> s.pr[q].ctx.i != i)
  }

  /** The parent of i changes, which was p or nobody, and i is at most started. */
  ghost predicate Aside(s: St, s': St, p: nat, i: nat) {
    && p < |s.pr| == |s'.pr| && i < |s.pr|
    && (s.pr[i].parent == None || s.pr[i].parent == Some(p) || s'.pr[i].parent == s.pr[i].parent)
    && (i == p || s'.pr[p].parent == s.pr[p].parent)
    && (s'.pr[i].pc == s.pr[i].pc || s'.pr[i].pc.NoThread? || s'.pr[i].pc.Fresh? || i == p)
    && (s'.pr[i].ctx == s.pr[i].ctx || s'.pr[i].ctx.Plain? || i == p)
    && forall q: nat {:trigger AsideAt(s, s', p, i, q)} :: AsideAt(s, s', p, i, q)
  }

  lemma {:induction false} AsideKids(s: St, s': St, p: nat, i: nat, q: nat)
    requires Struct(s) && Kids(s) && Aside(s, s', p, i) && q < |s.pr| && q != p
    ensures KidsAt(s', q)
  {
    hide Waits, PlaceAt, HeldAt, MakerAt, ParentAt, CtxFits;
    assert KidsAt(s, q) && Basic(s, q) && AsideAt(s, s', p, i, q);
    if SleepPc(s.pr[q].pc) && s.pr[q].pc.ch.Child? {
      var k: nat :| k < |s.pr| && ChildOf(s.pr, q, k);
      assert AsideAt(s, s', p, i, k) && ChildOf(s'.pr, q, k);
    }
    if s.pr[q].ctx.Forking? { assert AsideAt(s, s', p, i, s.pr[q].ctx.i); }
  }

  lemma {:induction false} AsideAll(s: St, s': St, p: nat, i: nat)
    requires Struct(s) && Kids(s) && Aside(s, s', p, i) && KidsAt(s', p)
    ensures Kids(s')
  {
    forall q: nat ensures KidsAt(s', q) {
      if q < |s.pr| && q != p { AsideKids(s, s', p, i, q); }
    }
  }

  /** The holder of wait_lock is the only one, and a child being made has one maker. */
  lemma {:induction false} OneHolder(s: St, p: nat, q: nat)
    requires Struct(s) && p < |s.pr| && q < |s.pr| && p != q
    ensures HoldsAny(s.pr[p].pc) && s.pr[p].pc.lk == WaitLock && HoldsAny(s.pr[q].pc) ==> s.pr[q].pc.lk != WaitLock
    ensures WaitLock !in s.held && HoldsAny(s.pr[q].pc) ==> s.pr[q].pc.lk != WaitLock
    ensures s.pr[q].ctx.Forking? ==> s.pr[q].ctx.i < |s.pr| && s.pr[s.pr[q].ctx.i].maker == Some(q)
  {
    hide Shape, PcFits, PlaceAt, ParentAt;
    assert Basic(s, p) && Basic(s, q);
  }

  lemma {:induction false} ReapKids(s: St, p: nat)
    requires Inv(s) && Kids(s) && CanScan(s, p) && ZombieOf(s.pr, p, s.pr[p].pc.job.i)
    ensures Kids(AfterScan(s, p, true))
  {
    var s', i := AfterScan(s, p, true), s.pr[p].pc.job.i;
    assert Basic(s, p) && Basic(s, i) && KidsAt(s, p);
    forall q: nat ensures AsideAt(s, s', p, i, q) {
      if q < |s.pr| && q != p { OneHolder(s, p, q); }
    }
    AsideAll(s, s', p, i);
  }

  lemma {:induction false} ReparentKids(s: St, p: nat)
    requires Inv(s) && Kids(s) && CanReparent(s, p)
    ensures Kids(AfterReparent(s, p))
  {
    var s', i := AfterReparent(s, p), s.pr[p].pc.job.i;
    assert Basic(s, p) && KidsAt(s, p);
    if i < |s.pr| && s.pr[i].parent == Some(p) {
      assert Basic(s, i);
      forall q: nat ensures AsideAt(s, s', p, i, q) {
        if q < |s.pr| && q != p {
          OneHolder(s, p, q);
          assert KidsAt(s, q);
        }
      }
      AsideAll(s, s', p, i);
    } else {
      OneMoves(s, s', p);
      MovesKids(s, s', p);
    }
  }

  lemma {:induction false} ExitKids(s: St, a: LifeStep)
    requires Inv(s) && Kids(s) && LifeEnabled(s, a) && (a.Exit? || a.ExitRelease?)
    ensures Kids(DoLife(s, a))
  {
    assert KidsAt(s, a.p);
    OneMoves(s, DoLife(s, a), a.p);
    MovesKids(s, DoLife(s, a), a.p);
  }

  lemma {:induction false} ForkAllocKids(s: St, p: nat, i: nat)
    requires Inv(s) && Kids(s) && CanForkAlloc(s, p, i)
    ensures Kids(AfterForkAlloc(s, p, i))
  {
    var s' := AfterForkAlloc(s, p, i);
    assert Basic(s, p) && Basic(s, i) && KidsAt(s, p);
    MovesKids(s, s', p);
  }

  /** fork gives the child up or lets it run. */
  lemma {:induction false} ForkEndKids(s: St, a: LifeStep, i: nat)
    requires Inv(s) && Kids(s) && LifeEnabled(s, a) && (a.ForkFail? || a.ForkGo?) && i == s.pr[a.p].ctx.i
    ensures Kids(DoLife(s, a))
  {
    hide Waits, PlaceAt, HeldAt, ParentAt;
    assert Basic(s, a.p) && Basic(s, i) && KidsAt(s, a.p);
    MovesKids(s, DoLife(s, a), a.p);
  }

  /** fork gives the child its parent. */
  lemma {:induction false} ForkParentKids(s: St, p: nat)
    requires Inv(s) && Kids(s) && InFork(s, p) && WaitLock !in s.held
    ensures Kids(AfterForkParent(s, p))
  {
    var s', i := AfterForkParent(s, p), s.pr[p].ctx.i;
    assert Basic(s, p) && Basic(s, i) && KidsAt(s, p);
    forall q: nat ensures AsideAt(s, s', p, i, q) {
      if q < |s.pr| && q != p { OneHolder(s, p, q); }
    }
    AsideAll(s, s', p, i);
  }

  lemma {:induction false} LifeKids(s: St, a: LifeStep)
    requires Inv(s) && Kids(s) && LifeEnabled(s, a)
    ensures Kids(DoLife(s, a))
  {
    hide Inv, Kids;
    match a
    case Scan(p, give) =>
      if give && ZombieOf(s.pr, p, s.pr[p].pc.job.i) { ReapKids(s, p); } else { ScanSkipKids(s, p, give); }
    case Reparent(p) => ReparentKids(s, p);
    case Exit(p) => ExitKids(s, a);
    case ExitRelease(p) => ExitKids(s, a);
    case ForkAlloc(p, i) => ForkAllocKids(s, p, i);
    case ForkFail(p) => ForkEndKids(s, a, s.pr[p].ctx.i);
    case ForkParent(p) => ForkParentKids(s, p);
    case ForkGo(p) => ForkEndKids(s, a, s.pr[p].ctx.i);
  }

  lemma {:induction false} StepKids(s: St, a: Action)
    requires Inv(s) && Kids(s) && Enabled(s, a)
    ensures Kids(Do(s, a))
  {
    hide Inv, Kids;
    match a
    case Cpus(c) => CpuKids(s, c);
    case Syncs(y) => SyncKids(s, y);
    case Lives(f) => LifeKids(s, f);
    case Logs(g) => LogKids(s, g);
  }

  lemma {:induction false} RunKids(states: seq<St>, actions: seq<Action>, k: nat)
    requires Run(states, actions) && k < |states|
    ensures Inv(states[k]) && Kids(states[k])
  {
    ProcTheorems.RunKeeps(states, actions, k);
    if k > 0 {
      RunKids(states, actions, k - 1);
      hide Inv, Kids;
      StepKids(states[k - 1], actions[k - 1]);
    }
  }

  // ----- main results -----

  /** In every run, whoever sleeps in wait has a child that can wake it. */
  lemma {:induction false} WaiterHasChild(states: seq<St>, actions: seq<Action>, k: nat, p: nat)
    requires Run(states, actions) && k < |states| && p < |states[k].pr|
    requires states[k].pr[p].chan.Some? && states[k].pr[p].chan.value.Child?
    ensures exists c: nat :: c < |states[k].pr| && states[k].pr[c].parent == Some(p)
  {
    RunKids(states, actions, k);
    assert Basic(states[k], p) && KidsAt(states[k], p);
    var c: nat :| c < |states[k].pr| && ChildOf(states[k].pr, p, c);
  }

  /** In every run, at the end of wait's scan havekids says whether the caller has a
      child. So wait gives up exactly if the caller has none, or has been killed; a
      caller with a child may go to sleep and no other one may. */
  lemma {:induction false} WaitOutcome(states: seq<St>, actions: seq<Action>, k: nat, p: nat)
    requires Run(states, actions) && k < |states| && p < |states[k].pr| && Runs(states[k], p)
    requires states[k].pr[p].pc.In? && states[k].pr[p].pc.job.WScan? && states[k].pr[p].pc.job.i == |states[k].pr|
    ensures var s := states[k];
      var child := exists c: nat :: c < |s.pr| && s.pr[c].parent == Some(p);
      && (s.pr[p].pc.job.kids <==> child)
      && (Enabled(s, Syncs(Finish(p))) <==> !child || s.pr[p].killed)
      && (Enabled(s, Syncs(GoToSleep(p))) <==> child)
  {
    var s := states[k];
    RunKids(states, actions, k);
    assert KidsAt(s, p);
    assert HasChild(s.pr, p, |s.pr|) <==> exists c: nat :: c < |s.pr| && s.pr[c].parent == Some(p) by {
      if c: nat :| c < |s.pr| && s.pr[c].parent == Some(p) { assert ChildOf(s.pr, p, c); }
      if c: nat :| c < |s.pr| && ChildOf(s.pr, p, c) { assert s.pr[c].parent == Some(p); }
    }
  }
}
