/** The life of a child from beginning to end: fork, the child's exit and wait lead back
    to the state they started from. */
module ProcCycle {
  import opened Bytes
  import opened ProcMachine
  import opened ProcInvariant
  import opened ProcTheorems
  import opened ProcCalls
  import Solo = ProcSolo

  // ----- free slots -----

  /** A slot that is not in use has been cleared. */
  predicate Cleared(r: Proc) { r.state == UNUSED ==> r == FREE_PROC }

  lemma {:induction false} CpuClears(s: St, a: CpuStep, q: nat)
    requires Inv(s) && CpuEnabled(s, a) && q < |s.pr| && Cleared(s.pr[q])
    ensures q < |DoCpu(s, a).pr| && Cleared(DoCpu(s, a).pr[q])
  {
    assert Basic(s, q);
    if a.Unlock? { assert CpuAt(s, a.c); }
  }

  lemma {:induction false} SyncClears(s: St, a: SyncStep, q: nat)
    requires Inv(s) && SyncEnabled(s, a) && q < |s.pr| && Cleared(s.pr[q])
    ensures q < |DoSync(s, a).pr| && Cleared(DoSync(s, a).pr[q])
  {
    assert Basic(s, q);
    hide Inv, Links, CtxFits, JobsFit, LogBusy;
  }

  lemma {:induction false} LifeClears(s: St, a: LifeStep, q: nat)
    requires Inv(s) && LifeEnabled(s, a) && q < |s.pr| && Cleared(s.pr[q])
    ensures q < |DoLife(s, a).pr| && Cleared(DoLife(s, a).pr[q])
  {
    assert Basic(s, q) && Basic(s, a.p);
    hide Inv, CtxFits, JobsFit;
  }

  lemma {:induction false} LogClears(s: St, a: LogStep, q: nat)
    requires Inv(s) && LogEnabled(s, a) && q < |s.pr| && Cleared(s.pr[q])
    ensures q < |DoLog(s, a).pr| && Cleared(DoLog(s, a).pr[q])
  {
    assert Basic(s, q);
    hide Inv, Links, CtxFits, JobsFit, LogBusy;
  }

  /** In every run a free slot is as freeproc leaves it: nothing of its last process is
      passed on to the next. */
  lemma {:induction false} FreeSlots(states: seq<St>, actions: seq<Action>, k: nat, q: nat)
    requires Run(states, actions) && k < |states| && q < |states[k].pr|
    ensures Cleared(states[k].pr[q])
  {
    if k > 0 {
      StepOf(states, actions, k - 1);
      FreeSlots(states, actions, k - 1, q);
      RunKeeps(states, actions, k - 1);
      var s := states[k - 1];
      hide Run, Inv, Cleared;
      match actions[k - 1]
      case Cpus(a) => CpuClears(s, a, q);
      case Syncs(a) => SyncClears(s, a, q);
      case Lives(a) => LifeClears(s, a, q);
      case Logs(a) => LogClears(s, a, q);
    }
  }

  // ----- fork, exit, wait -----

  /** Nobody but p could sleep on Child(p), and a free slot has no children. */
  lemma {:induction false} Alone(s: St, p: nat, i: nat, k: nat)
    requires Inv(s) && IsOut(s, p) && i < |s.pr| && s.pr[i].state == UNUSED && k < |s.pr|
    ensures s.pr[p].state == RUNNING && s.pr[k].parent != Some(i)
    ensures s.pr[k].state == SLEEPING ==> s.pr[k].chan != Some(Child(p))
  {
    assert Basic(s, p) && Basic(s, i) && Basic(s, k);
    hide Inv, CtxFits;
  }

  function NewChild(p: nat): (r: Proc) { FREE_PROC.(state := RUNNABLE, parent := Some(p), pc := Fresh) }

  /** The child runs on CPU c. */
  ghost function Started(s: St, p: nat, i: nat, c: nat): (r: St)
    requires i < |s.pr| && c < |s.cpu|
  {
    s.(pr := s.pr[i := NewChild(p).(state := RUNNING, pc := Out, place := OnCpu(c))], cpu := s.cpu[c := On(i)])
  }

  lemma {:induction false} Starts(s: St, p: nat, i: nat, c: nat)
    requires IsPlain(s, p) && WaitLock !in s.held && i < |s.pr| && i != p && s.pr[i] == FREE_PROC
    requires c < |s.cpu| && s.cpu[c] == Idle
    ensures Solo.Reaches(s, Started(s, p, i, c))
  {
    var s1 := s.(pr := s.pr[i := NewChild(p)]);
    var s2 := AfterDispatch(s1, c, i);
    Solo.ForkAlone(s, p, i);
    Solo.Next(s1, Cpus(Dispatch(c, i)), s2);
    assert AfterResume(s2, i).pr == Started(s, p, i, c).pr;
    Solo.Next(s2, Cpus(Resume(i)), Started(s, p, i, c));
    hide *;
    Solo.Then(s, s1, s2);
    Solo.Then(s, s2, Started(s, p, i, c));
  }

  /** The child is a zombie that waits to be freed. */
  ghost function Ended(s: St, p: nat, i: nat): (r: St)
    requires i < |s.pr|
  {
    s.(pr := s.pr[i := NewChild(p).(state := ZOMBIE, pc := Dead)])
  }

  /** Nobody is there to be woken or passed on. */
  lemma {:induction false} QuietFarewell(s: St, p: nat, i: nat, c: nat)
    requires Inv(s) && IsOut(s, p) && i < |s.pr| && i != p && s.pr[i].state == UNUSED && c < |s.cpu|
    ensures var pr := Started(s, p, i, c).pr; Solo.Farewell(pr, i) == pr
  {
    var pr := Started(s, p, i, c).pr;
    forall k: nat | k < |pr| && k != i
      ensures pr[k].parent != Some(i) && (pr[k].state == SLEEPING ==> pr[k].chan != Some(Child(p)))
    {
      Alone(s, p, i, k);
    }
    assert Solo.Given(pr, i, |pr|) == pr;
    assert Solo.Woken(pr, i, Child(p)) == pr;
  }

  lemma {:induction false} Ends(s: St, p: nat, i: nat, c: nat)
    requires Inv(s) && IsPlain(s, p) && WaitLock !in s.held && i < |s.pr| && i != p && s.pr[i] == FREE_PROC
    requires c < |s.cpu| && s.cpu[c] == Idle && Solo.Quiet(s, p) && i != INIT
    ensures Solo.Returns(Started(s, p, i, c), i, WaitLock, XRep(0), Ended(s, p, i))
  {
    var s1 := Started(s, p, i, c);
    QuietFarewell(s, p, i, c);
    assert s1.pr[i := s1.pr[i].(state := ZOMBIE, pc := Dead, place := Nowhere)] == Ended(s, p, i).pr;
    assert s1.cpu[c := Idle] == s.cpu;
    hide Inv;
    Solo.ExitAlone(s1, i, c);
  }

  /** In every run: when p is outside the kernel's waiting, has no zombie child, a slot is
      free and a CPU is idle, p can fork, the child can run and exit, and p's wait then
      leads back to exactly this state. */
  lemma {:induction false} ChildRoundTrip(states: seq<St>, actions: seq<Action>, k: nat, p: nat, i: nat, c: nat)
    requires Run(states, actions) && k < |states| && IsPlain(states[k], p) && WaitLock !in states[k].held
    requires Solo.Quiet(states[k], p) && NoZombies(states[k].pr, p)
    requires i < |states[k].pr| && states[k].pr[i].state == UNUSED && c < |states[k].cpu| && states[k].cpu[c] == Idle
    ensures var s := states[k];
      && Solo.Reaches(s, Started(s, p, i, c))
      && Solo.Returns(Started(s, p, i, c), i, WaitLock, XRep(0), Ended(s, p, i))
      && Solo.Returns(Ended(s, p, i), p, WaitLock, WScan(0, false), s)
  {
    var s := states[k];
    RunKeeps(states, actions, k);
    FreeSlots(states, actions, k, i);
    assert Basic(s, p) && Basic(s, i) && Basic(s, INIT);
    Starts(s, p, i, c);
    Ends(s, p, i, c);
    var s1 := Ended(s, p, i);
    assert s1.pr[i := FREE_PROC] == s.pr;
    forall j | 0 <= j < i && s1.pr[j].parent == Some(p) ensures s1.pr[j].state != ZOMBIE {
      assert !ZombieOf(s.pr, p, j);
    }
    hide Run, Inv, Solo.Reaches, Solo.Returns;
    Solo.WaitAlone(s1, p, i);
  }

  /** After boot: init gets any CPU, and every slot and CPU but its own is free. */
  lemma {:induction false} Boots(n: nat, m: nat, c: nat) returns (s0: St, s: St)
    requires n > 0 && c < m
    ensures Init(s0) && |s0.pr| == n && |s0.cpu| == m && Solo.Reaches(s0, s) && IsPlain(s, INIT) && Solo.Quiet(s, INIT)
    ensures s.held == map[] && s.pr[INIT].place == OnCpu(c) && NoZombies(s.pr, INIT)
    ensures |s.pr| == n && |s.cpu| == m && (forall i :: 0 < i < n ==> s.pr[i].state == UNUSED)
    ensures forall d :: 0 <= d < m && d != c ==> s.cpu[d] == Idle
  {
    var init := Proc(RUNNABLE, None, None, Fresh, Nowhere, None, Plain, false);
    s0 := St(seq(n, p => if p == INIT then init else FREE_PROC), seq(m, _ => Idle), map[], map[], None, 0, 0);
    var s1 := AfterDispatch(s0, c, INIT);
    s := AfterResume(s1, INIT);
    Solo.Next(s0, Cpus(Dispatch(c, INIT)), s1);
    Solo.Next(s1, Cpus(Resume(INIT)), s);
    Solo.Then(s0, s1, s);
  }
}
