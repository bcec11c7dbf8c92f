/** What each call does when nobody interferes, as its caller sees it: the whole state
    afterwards against the state before. */
module ProcSolo {
  import opened Bytes
  import opened ProcMachine

  /** s' is reached from s by the given steps. */
  ghost predicate Path(s: St, acts: seq<Action>, s': St)
    decreases |acts|
  {
    if acts == [] then s == s' else Enabled(s, acts[0]) && Path(Do(s, acts[0]), acts[1..], s')
  }

  ghost predicate Reaches(s: St, s': St) { exists acts: seq<Action> :: Path(s, acts, s') }

  lemma {:induction false} PathCat(s: St, a: seq<Action>, s1: St, b: seq<Action>, s2: St)
    requires Path(s, a, s1) && Path(s1, b, s2)
    ensures Path(s, a + b, s2)
    decreases |a|
  {
    hide Enabled, Do;
    if a == [] {
      assert a + b == b;
    } else {
      PathCat(Do(s, a[0]), a[1..], s1, b, s2);
      assert (a + b)[1..] == a[1..] + b;
    }
  }

  lemma {:induction false} Then(s: St, s1: St, s2: St)
    requires Reaches(s, s1) && Reaches(s1, s2)
    ensures Reaches(s, s2)
  {
    hide Path;
    var a :| Path(s, a, s1);
    var b :| Path(s1, b, s2);
    PathCat(s, a, s1, b, s2);
  }

  lemma {:induction false} Stays(s: St)
    ensures Reaches(s, s)
  {
    assert Path(s, [], s);
  }

  lemma {:induction false} Next(s: St, a: Action, s': St)
    requires Enabled(s, a) && Do(s, a) == s'
    ensures Reaches(s, s')
  {
    hide Enabled, Do;
    assert Path(s', [], s') && [a][1..] == [];
    assert Path(s, [a], s');
  }

  // ----- a call and its return -----

  /** No p->lock but that of p is held. */
  ghost predicate Quiet(s: St, p: nat) { forall q :: 0 <= q < |s.pr| && q != p ==> !OwnLocked(s.pr[q]) }

  predicate MayCall(s: St, p: nat, lk: Lock, job: Job) {
    && IsOut(s, p) && lk !in s.held && Callable(s, p, lk, job)
    && (s.pr[p].ctx.Plain? || (s.pr[p].ctx.Committing? && lk.SleepLk?))
  }

  /** p can make the call, and come out of it in state s'. */
  ghost predicate Returns(s: St, p: nat, lk: Lock, job: Job, s': St) {
    var call := Syncs(Call(p, lk, job));
    Enabled(s, call) && Reaches(Do(s, call), s')
  }

  /** The processes pr, with p at this pc, which holds lk. */
  ghost function Inside(s: St, pr: seq<Proc>, p: nat, lk: Lock, pc: Pc): (r: St)
    requires p < |pr|
  {
    s.(pr := pr[p := pr[p].(pc := pc)], held := s.held[lk := p])
  }

  lemma {:induction false} Enter(s: St, p: nat, lk: Lock, job: Job, s': St)
    requires MayCall(s, p, lk, job) && Reaches(Inside(s, s.pr, p, lk, In(lk, job)), s')
    ensures Returns(s, p, lk, job, s')
  {
    var call, s1, s2 := Syncs(Call(p, lk, job)), SetPc(s, p, Want(lk, job)), Inside(s, s.pr, p, lk, In(lk, job));
    assert Do(s, call) == s1;
    assert s1.pr[p := s1.pr[p].(pc := In(lk, job))] == s2.pr;
    Next(s1, Syncs(Acquire(p)), s2);
    Then(s1, s2, s');
  }

  /** Out again, with nothing changed but the processes pr. */
  lemma {:induction false} LeaveInside(s: St, pr: seq<Proc>, p: nat, lk: Lock, pc: Pc)
    requires p < |pr| && pr[p].pc.Out? && lk !in s.held && (pc.In? || pc.SleepOwn?) && pc.lk == lk
    ensures Leave(Inside(s, pr, p, lk, pc), p, Out) == s.(pr := pr)
  {
    var s1 := Inside(s, pr, p, lk, pc);
    assert s1.pr[p := s1.pr[p].(pc := Out)] == pr;
    assert s1.held - {lk} == s.held;
  }

  /** acquiresleep of a free lock takes it. */
  lemma {:induction false} AcquiresleepAlone(s: St, p: nat, l: nat)
    requires MayCall(s, p, SleepLk(l), ASCheck) && l !in s.locked
    ensures Returns(s, p, SleepLk(l), ASCheck, s.(locked := s.locked[l := p]))
  {
    var lk, s' := SleepLk(l), s.(locked := s.locked[l := p]);
    LeaveInside(s, s.pr, p, lk, In(lk, ASCheck));
    Next(Inside(s, s.pr, p, lk, In(lk, ASCheck)), Syncs(TakeSleep(p)), s');
    Enter(s, p, lk, ASCheck, s');
  }

  /** begin_op without reason to wait counts one operation more. */
  lemma {:induction false} BeginOpAlone(s: St, p: nat)
    requires MayCall(s, p, LogLock, BOCheck) && !LogBusy(s)
    ensures Returns(s, p, LogLock, BOCheck, s.(outstanding := s.outstanding + 1))
  {
    var s' := s.(outstanding := s.outstanding + 1);
    LeaveInside(s, s.pr, p, LogLock, In(LogLock, BOCheck));
    Next(Inside(s, s.pr, p, LogLock, In(LogLock, BOCheck)), Logs(BeginOp(p)), s');
    Enter(s, p, LogLock, BOCheck, s');
  }

  // ----- wakeup -----

  function WokenOne(r: Proc, ch: Chan): (r': Proc) {
    if r.state == SLEEPING && r.chan == Some(ch) then r.(state := RUNNABLE) else r
  }

  /** All who sleep on ch, from process j on and but for p, are runnable. */
  function WokenFrom(pr: seq<Proc>, p: nat, ch: Chan, j: nat): (r: seq<Proc>)
    ensures |r| == |pr|
  {
    seq(|pr|, k requires 0 <= k < |pr| => if k >= j && k != p then WokenOne(pr[k], ch) else pr[k])
  }

  function Woken(pr: seq<Proc>, p: nat, ch: Chan): (r: seq<Proc>)
    ensures |r| == |pr|
  {
    WokenFrom(pr, p, ch, 0)
  }

  lemma {:induction false} WakeStep(s: St, p: nat)
    requires Runs(s, p) && s.pr[p].pc.Waking? && s.pr[p].pc.j < |s.pr| && Quiet(s, p)
    ensures CanWake(s, p)
    ensures var pc, s' := s.pr[p].pc, AfterWake(s, p);
      && s' == s.(pr := s'.pr) && |s'.pr| == |s.pr| && Quiet(s', p)
      && s'.pr[p] == s.pr[p].(pc := Waking(pc.lk, pc.ch, pc.j + 1, pc.job))
      && forall k :: 0 <= k < |s.pr| && k != p ==>
           s'.pr[k] == if k == pc.j then WokenOne(s.pr[k], pc.ch) else s.pr[k]
  {
  }

  lemma {:induction false} WakeRest(s: St, p: nat)
    requires Runs(s, p) && s.pr[p].pc.Waking? && s.pr[p].pc.j <= |s.pr| && Quiet(s, p)
    ensures var pc := s.pr[p].pc;
      Reaches(s, s.(pr := WokenFrom(s.pr, p, pc.ch, pc.j)[p := s.pr[p].(pc := In(pc.lk, pc.job))]))
    decreases |s.pr| - s.pr[p].pc.j
  {
    var pc, s1 := s.pr[p].pc, AfterWake(s, p);
    var pr := WokenFrom(s.pr, p, pc.ch, pc.j)[p := s.pr[p].(pc := In(pc.lk, pc.job))];
    Next(s, Syncs(Wake(p)), s1);
    if pc.j < |s.pr| {
      WakeStep(s, p);
      hide Reaches, AfterWake, Enabled, Do, CanWake;
      WakeRest(s1, p);
      assert WokenFrom(s1.pr, p, pc.ch, pc.j + 1)[p := s1.pr[p].(pc := In(pc.lk, pc.job))] == pr;
      Then(s, s1, s.(pr := pr));
    } else {
      assert pr == s1.pr;
    }
  }

  /** wakeup() with lk held, and on at job. */
  lemma {:induction false} WakeAll(s: St, pr: seq<Proc>, p: nat, lk: Lock, ch: Chan, job: Job)
    requires p < |pr| && pr[p].place.OnCpu? && Quiet(s.(pr := pr), p)
    ensures Reaches(Inside(s, pr, p, lk, Waking(lk, ch, 0, job)), Inside(s, Woken(pr, p, ch), p, lk, In(lk, job)))
  {
    var s1 := Inside(s, pr, p, lk, Waking(lk, ch, 0, job));
    WakeRest(s1, p);
    hide Reaches;
    assert WokenFrom(s1.pr, p, ch, 0)[p := s1.pr[p].(pc := In(lk, job))]
      == Inside(s, Woken(pr, p, ch), p, lk, In(lk, job)).pr;
  }

  /** wakeup() and out. */
  lemma {:induction false} WakeAndOut(s: St, p: nat, lk: Lock, ch: Chan)
    requires IsOut(s, p) && lk !in s.held && Quiet(s, p)
    ensures Reaches(Inside(s, s.pr, p, lk, Waking(lk, ch, 0, Done)), s.(pr := Woken(s.pr, p, ch)))
  {
    var pr := Woken(s.pr, p, ch);
    WakeAll(s, s.pr, p, lk, ch, Done);
    LeaveInside(s, pr, p, lk, In(lk, Done));
    Next(Inside(s, pr, p, lk, In(lk, Done)), Syncs(Finish(p)), s.(pr := pr));
    hide Reaches;
    Then(Inside(s, s.pr, p, lk, Waking(lk, ch, 0, Done)), Inside(s, pr, p, lk, In(lk, Done)), s.(pr := pr));
  }

  /** releasesleep gives the lock up and makes all who sleep on it runnable. */
  lemma {:induction false} ReleasesleepAlone(s: St, p: nat, l: nat)
    requires MayCall(s, p, SleepLk(l), RSFree) && Quiet(s, p)
    ensures Returns(s, p, SleepLk(l), RSFree,
      s.(locked := s.locked - {l}, pr := Woken(s.pr, p, SleepChan(l))))
  {
    var lk, s1 := SleepLk(l), s.(locked := s.locked - {l});
    var s2, s3, s' := Inside(s, s.pr, p, lk, In(lk, RSFree)),
        Inside(s1, s.pr, p, lk, Waking(lk, SleepChan(l), 0, Done)), s1.(pr := Woken(s.pr, p, SleepChan(l)));
    assert s2.pr[p := s2.pr[p].(pc := Waking(lk, SleepChan(l), 0, Done))] == s3.pr;
    Next(s2, Syncs(FreeSleep(p)), s3);
    WakeAndOut(s1, p, lk, SleepChan(l));
    hide Reaches, Returns;
    Then(s2, s3, s');
    Enter(s, p, lk, RSFree, s');
  }

  /** end_op of one operation among several counts it off and wakes who waits for room. */
  lemma {:induction false} EndOpAlone(s: St, p: nat)
    requires MayCall(s, p, LogLock, EODec) && Quiet(s, p) && s.outstanding > 1
    ensures Returns(s, p, LogLock, EODec, s.(outstanding := s.outstanding - 1, pr := Woken(s.pr, p, LogChan)))
  {
    var s1 := s.(outstanding := s.outstanding - 1);
    var s2, s3, s' := Inside(s, s.pr, p, LogLock, In(LogLock, EODec)),
        Inside(s1, s.pr, p, LogLock, Waking(LogLock, LogChan, 0, Done)), s1.(pr := Woken(s.pr, p, LogChan));
    assert s2.pr[p := s2.pr[p].(pc := Waking(LogLock, LogChan, 0, Done))] == s3.pr;
    Next(s2, Logs(EndOp(p)), s3);
    WakeAndOut(s1, p, LogLock, LogChan);
    hide Reaches, Returns;
    Then(s2, s3, s');
    Enter(s, p, LogLock, EODec, s');
  }

  /** end_op of the last operation makes its caller the committer. */
  lemma {:induction false} LastEndOpAlone(s: St, p: nat)
    requires MayCall(s, p, LogLock, EODec) && s.outstanding == 1
    ensures Returns(s, p, LogLock, EODec,
      s.(outstanding := 0, committer := Some(p), pr := s.pr[p := s.pr[p].(ctx := Committing)]))
  {
    var s1 := Inside(s, s.pr, p, LogLock, In(LogLock, EODec));
    LeaveInside(s, s.pr, p, LogLock, In(LogLock, EODec));
    Next(s1, Logs(EndOp(p)), Do(s1, Logs(EndOp(p))));
    Enter(s, p, LogLock, EODec, Do(s1, Logs(EndOp(p))));
  }

  /** The end of end_op after commit: operations can begin again, and who waits is woken. */
  lemma {:induction false} CommitEndsAlone(s: St, p: nat)
    requires InCommit(s, p) && LogLock !in s.held && Quiet(s, p)
    ensures var pr := s.pr[p := s.pr[p].(ctx := Plain)];
      Enabled(s, Logs(CommitOver(p)))
      && Reaches(Do(s, Logs(CommitOver(p))), s.(committer := None, pr := Woken(pr, p, LogChan)))
  {
    var pr := s.pr[p := s.pr[p].(ctx := Plain)];
    var s0, s1 := Do(s, Logs(CommitOver(p))), s.(committer := None, pr := pr);
    var s2, s3, s' := Inside(s, pr, p, LogLock, In(LogLock, CDone)),
        Inside(s1, pr, p, LogLock, Waking(LogLock, LogChan, 0, Done)), s1.(pr := Woken(pr, p, LogChan));
    assert s0.pr[p := s0.pr[p].(pc := In(LogLock, CDone))] == s2.pr;
    Next(s0, Syncs(Acquire(p)), s2);
    assert s2.pr[p := s2.pr[p].(pc := Waking(LogLock, LogChan, 0, Done))] == s3.pr;
    Next(s2, Logs(CommitDone(p)), s3);
    WakeAndOut(s1, p, LogLock, LogChan);
    hide Reaches;
    Then(s2, s3, s');
    Then(s0, s2, s');
  }

  // ----- wait -----

  /** No child of p among the processes from i to n is a zombie. */
  ghost predicate NoZombie(pr: seq<Proc>, p: nat, i: nat, n: nat) {
    forall k :: i <= k < n && k < |pr| && pr[k].parent == Some(p) ==> pr[k].state != ZOMBIE
  }

  ghost function At(s: St, p: nat, i: nat, kids: bool): (r: St)
    requires p < |s.pr|
  {
    Inside(s, s.pr, p, WaitLock, In(WaitLock, WScan(i, kids)))
  }

  lemma {:induction false} ScanStep(s: St, p: nat, i: nat, kids: bool)
    requires IsOut(s, p) && i < |s.pr| && Quiet(s, p) && NoZombie(s.pr, p, i, i + 1)
    ensures Reaches(At(s, p, i, kids), At(s, p, i + 1, kids || s.pr[i].parent == Some(p)))
  {
    var s1, s2 := At(s, p, i, kids), At(s, p, i + 1, kids || s.pr[i].parent == Some(p));
    assert s1.pr[p := s1.pr[p].(pc := s2.pr[p].pc)] == s2.pr;
    Next(s1, Lives(Scan(p, true)), s2);
  }

  /** wait's scan comes to process n. */
  lemma {:induction false} ScanTo(s: St, p: nat, i: nat, kids: bool, n: nat) returns (kids': bool)
    requires IsOut(s, p) && i <= n <= |s.pr| && Quiet(s, p) && NoZombie(s.pr, p, i, n)
    ensures Reaches(At(s, p, i, kids), At(s, p, n, kids'))
    ensures kids' <==> kids || exists k :: i <= k < n && s.pr[k].parent == Some(p)
    decreases n - i
  {
    kids' := kids;
    if i == n {
      Stays(At(s, p, i, kids));
    } else {
      ScanStep(s, p, i, kids);
      hide Reaches;
      var more := kids || s.pr[i].parent == Some(p);
      kids' := ScanTo(s, p, i + 1, more, n);
      Then(At(s, p, i, kids), At(s, p, i + 1, more), At(s, p, n, kids'));
    }
  }

  /** wait frees the first zombie child. */
  lemma {:induction false} WaitAlone(s: St, p: nat, i: nat)
    requires MayCall(s, p, WaitLock, WScan(0, false)) && Quiet(s, p) && i < |s.pr| && i != p
    requires s.pr[i].parent == Some(p) && s.pr[i].state == ZOMBIE && NoZombie(s.pr, p, 0, i)
    ensures Returns(s, p, WaitLock, WScan(0, false), s.(pr := s.pr[i := FREE_PROC]))
  {
    var kids := ScanTo(s, p, 0, false, i);
    var s1, s' := At(s, p, i, kids), s.(pr := s.pr[i := FREE_PROC]);
    assert s1.pr[i := FREE_PROC][p := s1.pr[p].(pc := Out)] == s'.pr;
    assert s1.held - {WaitLock} == s'.held;
    Next(s1, Lives(Scan(p, true)), s');
    hide Reaches, Returns;
    Then(At(s, p, 0, false), s1, s');
    Enter(s, p, WaitLock, WScan(0, false), s');
  }

  /** wait without children comes back with nothing changed. */
  lemma {:induction false} WaitWithoutChild(s: St, p: nat)
    requires MayCall(s, p, WaitLock, WScan(0, false)) && Quiet(s, p)
    requires forall k :: 0 <= k < |s.pr| ==> s.pr[k].parent != Some(p)
    ensures Returns(s, p, WaitLock, WScan(0, false), s)
  {
    var kids := ScanTo(s, p, 0, false, |s.pr|);
    var s1 := At(s, p, |s.pr|, kids);
    LeaveInside(s, s.pr, p, WaitLock, In(WaitLock, WScan(|s.pr|, kids)));
    Next(s1, Syncs(Finish(p)), s);
    hide Reaches, Returns;
    Then(At(s, p, 0, false), s1, s);
    Enter(s, p, WaitLock, WScan(0, false), s);
  }

  // ----- fork, kill -----

  /** fork with a free slot: a runnable child of the caller, and nothing else. */
  lemma {:induction false} ForkAlone(s: St, p: nat, i: nat)
    requires IsPlain(s, p) && WaitLock !in s.held && i < |s.pr| && i != p && s.pr[i] == FREE_PROC
    ensures Reaches(s, s.(pr := s.pr[i := FREE_PROC.(state := RUNNABLE, parent := Some(p), pc := Fresh)]))
  {
    var s1 := AfterForkAlloc(s, p, i);
    var s2 := AfterForkParent(s1, p);
    var s3 := s.(pr := s.pr[i := FREE_PROC.(state := RUNNABLE, parent := Some(p), pc := Fresh)]);
    Next(s, Lives(ForkAlloc(p, i)), s1);
    Next(s1, Lives(ForkParent(p)), s2);
    assert AfterForkGo(s2, p).pr == s3.pr;
    Next(s2, Lives(ForkGo(p)), s3);
    hide Reaches;
    Then(s, s1, s2);
    Then(s, s2, s3);
  }

  /** kill marks a process that is in use, and makes it runnable if it sleeps. */
  lemma {:induction false} KillAlone(s: St, p: nat, i: nat)
    requires IsPlain(s, p) && Quiet(s, p) && i < |s.pr| && s.pr[i].state != UNUSED
    ensures Enabled(s, Syncs(Kill(p, i)))
    ensures var q := s.pr[i];
      Do(s, Syncs(Kill(p, i)))
        == s.(pr := s.pr[i := q.(killed := true, state := if q.state == SLEEPING then RUNNABLE else q.state)])
  {
  }

  // ----- exit -----

  ghost predicate HasChildBelow(pr: seq<Proc>, p: nat, n: nat) {
    exists k :: 0 <= k < n && k < |pr| && pr[k].parent == Some(p)
  }

  /** The children of p below n are those of init. */
  function Given(pr: seq<Proc>, p: nat, n: nat): (r: seq<Proc>)
    ensures |r| == |pr|
  {
    seq(|pr|, k requires 0 <= k < |pr| =>
      if k < n && pr[k].parent == Some(p) then pr[k].(parent := Some(INIT)) else pr[k])
  }

  /** reparent() up to process n: init is woken if it gets a child. */
  ghost function Passed(pr: seq<Proc>, p: nat, n: nat): (r: seq<Proc>)
    ensures |r| == |pr|
  {
    if HasChildBelow(pr, p, n) then Woken(Given(pr, p, n), p, Child(INIT)) else Given(pr, p, n)
  }

  /** p itself stays, and nobody's lock or place changes. */
  lemma {:induction false} PassedKeeps(s: St, p: nat, n: nat)
    requires IsOut(s, p) && Quiet(s, p) && s.pr[p].parent != Some(p)
    ensures Passed(s.pr, p, n)[p] == s.pr[p] && Quiet(s.(pr := Passed(s.pr, p, n)), p)
    ensures forall k :: 0 <= k < |s.pr| && k >= n ==> Passed(s.pr, p, n)[k].parent == s.pr[k].parent
  {
  }

  /** A child more is passed to init. */
  lemma {:induction false} PassedChild(pr: seq<Proc>, p: nat, n: nat)
    requires n < |pr| && pr[n].parent == Some(p) && p < |pr| && p != n
    ensures var q := Passed(pr, p, n);
      Woken(q[n := q[n].(parent := Some(INIT))], p, Child(INIT)) == Passed(pr, p, n + 1)
  {
    var q := Passed(pr, p, n);
    assert HasChildBelow(pr, p, n + 1);
    assert Woken(q[n := q[n].(parent := Some(INIT))], p, Child(INIT)) == Woken(Given(pr, p, n + 1), p, Child(INIT));
  }

  lemma {:induction false} PassedOther(pr: seq<Proc>, p: nat, n: nat)
    requires n < |pr| && pr[n].parent != Some(p)
    ensures Passed(pr, p, n + 1) == Passed(pr, p, n)
  {
    assert HasChildBelow(pr, p, n + 1) <==> HasChildBelow(pr, p, n);
    assert Given(pr, p, n + 1) == Given(pr, p, n);
  }

  ghost function Passing(s: St, p: nat, n: nat): (r: St)
    requires p < |s.pr|
  {
    Inside(s, Passed(s.pr, p, n), p, WaitLock, In(WaitLock, XRep(n)))
  }

  lemma {:induction false} PassOne(s: St, p: nat, n: nat)
    requires IsOut(s, p) && Quiet(s, p) && s.pr[p].parent != Some(p) && n < |s.pr|
    ensures Reaches(Passing(s, p, n), Passing(s, p, n + 1))
  {
    var q, s1, s2 := Passed(s.pr, p, n), Passing(s, p, n), Passing(s, p, n + 1);
    PassedKeeps(s, p, n);
    PassedKeeps(s, p, n + 1);
    hide Passed;
    if s.pr[n].parent != Some(p) {
      PassedOther(s.pr, p, n);
      assert s1.pr[p := s1.pr[p].(pc := In(WaitLock, XRep(n + 1)))] == s2.pr;
      Next(s1, Lives(Reparent(p)), s2);
    } else {
      var pr := q[n := q[n].(parent := Some(INIT))];
      var s3 := Inside(s, pr, p, WaitLock, Waking(WaitLock, Child(INIT), 0, XRep(n + 1)));
      assert AfterReparent(s1, p).pr == s3.pr;
      Next(s1, Lives(Reparent(p)), s3);
      PassedChild(s.pr, p, n);
      WakeAll(s, pr, p, WaitLock, Child(INIT), XRep(n + 1));
      hide Reaches;
      Then(s1, s3, s2);
    }
  }

  lemma {:induction false} PassAll(s: St, p: nat, n: nat)
    requires IsOut(s, p) && Quiet(s, p) && s.pr[p].parent != Some(p) && n <= |s.pr|
    ensures Reaches(Passing(s, p, 0), Passing(s, p, n))
  {
    if n == 0 {
      Stays(Passing(s, p, 0));
    } else {
      PassAll(s, p, n - 1);
      PassOne(s, p, n - 1);
      hide Reaches;
      Then(Passing(s, p, 0), Passing(s, p, n - 1), Passing(s, p, n));
    }
  }

  /** The processes when the exiting p has passed its children on and woken its parent. */
  ghost function Farewell(pr: seq<Proc>, p: nat): (r: seq<Proc>)
    requires p < |pr|
    ensures |r| == |pr|
  {
    var q := Passed(pr, p, |pr|);
    if pr[p].parent.Some? then Woken(q, p, Child(pr[p].parent.value)) else q
  }

  lemma {:induction false} WakeParent(s: St, p: nat)
    requires IsOut(s, p) && Quiet(s, p) && s.pr[p].parent != Some(p)
    ensures Reaches(Passing(s, p, |s.pr|), Inside(s, Farewell(s.pr, p), p, WaitLock, In(WaitLock, XLock)))
    ensures Farewell(s.pr, p)[p] == s.pr[p]
  {
    var q, s1 := Passed(s.pr, p, |s.pr|), Passing(s, p, |s.pr|);
    var s2 := Inside(s, Farewell(s.pr, p), p, WaitLock, In(WaitLock, XLock));
    PassedKeeps(s, p, |s.pr|);
    hide Passed;
    if s.pr[p].parent.Some? {
      var ch := Child(s.pr[p].parent.value);
      var s3 := Inside(s, q, p, WaitLock, Waking(WaitLock, ch, 0, XLock));
      assert AfterReparent(s1, p).pr == s3.pr;
      Next(s1, Lives(Reparent(p)), s3);
      WakeAll(s, q, p, WaitLock, ch, XLock);
      hide Reaches;
      Then(s1, s3, s2);
    } else {
      assert AfterReparent(s1, p).pr == s2.pr;
      Next(s1, Lives(Reparent(p)), s2);
    }
  }

  /** The zombie leaves its stack and its CPU. */
  lemma {:induction false} Vanish(s: St, pr: seq<Proc>, p: nat, c: nat)
    requires p < |pr| && pr[p].pc.Out? && pr[p].place == OnCpu(c) && c < |s.cpu| && s.cpu[c] == On(p)
      && WaitLock !in s.held
    ensures Reaches(Inside(s, pr, p, WaitLock, In(WaitLock, XLock)),
      s.(pr := pr[p := pr[p].(state := ZOMBIE, pc := Dead, place := Nowhere)], cpu := s.cpu[c := Idle]))
  {
    var r := pr[p].(state := ZOMBIE);
    var s1, s2 := Inside(s, pr, p, WaitLock, In(WaitLock, XLock)),
        Inside(s, pr[p := r], p, WaitLock, In(WaitLock, XRel));
    var s3 := s.(pr := pr[p := r.(pc := ExitSw)]);
    var s4 := s.(pr := pr[p := r.(pc := Dead, place := BackOn(c))], cpu := s.cpu[c := Back(p)]);
    var s' := s.(pr := pr[p := r.(pc := Dead, place := Nowhere)], cpu := s.cpu[c := Idle]);
    assert s1.pr[p := s1.pr[p].(state := ZOMBIE, pc := In(WaitLock, XRel))] == s2.pr;
    Next(s1, Lives(Exit(p)), s2);
    assert s2.pr[p := s2.pr[p].(pc := ExitSw)] == s3.pr && s2.held - {WaitLock} == s.held;
    Next(s2, Lives(ExitRelease(p)), s3);
    assert AfterSwitch(s3, p).pr == s4.pr;
    Next(s3, Cpus(Switch(p)), s4);
    assert AfterUnlock(s4, c).pr == s'.pr && AfterUnlock(s4, c).cpu == s'.cpu;
    Next(s4, Cpus(Unlock(c)), s');
    hide *;
    Then(s1, s2, s3);
    Then(s1, s3, s4);
    Then(s1, s4, s');
  }

  /** exit: the children are init's, init and the parent are runnable if they were in wait,
      the caller is a zombie off its stack, and its CPU is idle. */
  lemma {:induction false} ExitAlone(s: St, p: nat, c: nat)
    requires MayCall(s, p, WaitLock, XRep(0)) && Quiet(s, p) && s.pr[p].parent != Some(p)
    requires s.pr[p].place == OnCpu(c) && c < |s.cpu| && s.cpu[c] == On(p)
    ensures var pr := Farewell(s.pr, p);
      Returns(s, p, WaitLock, XRep(0),
        s.(pr := pr[p := s.pr[p].(state := ZOMBIE, pc := Dead, place := Nowhere)], cpu := s.cpu[c := Idle]))
  {
    var pr := Farewell(s.pr, p);
    var s1, s2, s' := Passing(s, p, |s.pr|), Inside(s, pr, p, WaitLock, In(WaitLock, XLock)),
        s.(pr := pr[p := s.pr[p].(state := ZOMBIE, pc := Dead, place := Nowhere)], cpu := s.cpu[c := Idle]);
    assert Passed(s.pr, p, 0) == s.pr;
    PassAll(s, p, |s.pr|);
    WakeParent(s, p);
    Vanish(s, pr, p, c);
    hide Reaches, Returns, Farewell, Passed;
    Then(Passing(s, p, 0), s1, s2);
    Then(Passing(s, p, 0), s2, s');
    Enter(s, p, WaitLock, XRep(0), s');
  }
}
