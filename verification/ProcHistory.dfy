/** What changes what in the process machine, over whole runs: parents, sleepers,
    sleeplocks and the counts of the log. */
module ProcHistory {
  import opened Bytes
  import opened LogFormat
  import opened ProcMachine
  import opened ProcInvariant
  import opened ProcTheorems
  import opened ProcWait
  import opened ProcCalls

  // ----- parents -----

  /** The ways a process gets another parent: fork gives it one, exit of its parent
      passes it to init, wait frees it. */
  predicate ParentMoves(s: St, a: Action, q: nat, was: Option<nat>, now: Option<nat>) {
    || (a.Lives? && a.f.ForkParent? && a.f.p < |s.pr| && s.pr[a.f.p].ctx == Forking(q)
        && was == None && now == Some(a.f.p))
    || (a.Lives? && a.f.Reparent? && was == Some(a.f.p) && now == Some(INIT))
    || (Reaped(s, a) == Some(q) && was == Some(a.f.p) && now == None)
  }

  lemma {:induction false} LifeParents(s: St, a: LifeStep, q: nat)
    requires Inv(s) && LifeEnabled(s, a) && q < |s.pr| && NoParentYet(s.pr, s.pr[a.p].ctx)
    ensures q < |DoLife(s, a).pr|
    ensures DoLife(s, a).pr[q].parent == s.pr[q].parent
      || ParentMoves(s, Lives(a), q, s.pr[q].parent, DoLife(s, a).pr[q].parent)
  {
    assert Basic(s, a.p);
    if a.ForkFail? || a.ForkParent? || a.ForkGo? { assert Basic(s, s.pr[a.p].ctx.i); }
    hide Inv, PlaceAt, HeldAt, ParentAt, PcFits;
  }

  lemma {:induction false} SyncParents(s: St, a: SyncStep, q: nat)
    requires SyncEnabled(s, a) && q < |s.pr|
    ensures q < |DoSync(s, a).pr| && DoSync(s, a).pr[q].parent == s.pr[q].parent
  {
  }

  lemma {:induction false} CpuParents(s: St, a: CpuStep, q: nat)
    requires CpuEnabled(s, a) && q < |s.pr|
    ensures q < |DoCpu(s, a).pr| && DoCpu(s, a).pr[q].parent == s.pr[q].parent
  {
  }

  /** In every run a parent changes in these ways only: in particular the children of a
      process that exits all go to init. */
  lemma {:induction false} ParentsChange(states: seq<St>, actions: seq<Action>, k: nat, q: nat)
    requires Run(states, actions) && k < |actions| && q < |states[k].pr|
    ensures q < |states[k + 1].pr|
    ensures states[k + 1].pr[q].parent == states[k].pr[q].parent
      || ParentMoves(states[k], actions[k], q, states[k].pr[q].parent, states[k + 1].pr[q].parent)
  {
    var s, a := states[k], actions[k];
    StepOf(states, actions, k);
    RunKids(states, actions, k);
    hide Run, Inv, ParentMoves, LifeEnabled, SyncEnabled, CpuEnabled, DoLife, DoSync, DoCpu;
    match a
    case Cpus(c) => CpuParents(s, c, q);
    case Syncs(y) => SyncParents(s, y, q);
    case Lives(f) =>
      assert KidsAt(s, f.p);
      Acts(s, f);
      LifeParents(s, f, q);
    case Logs(g) =>
  }

  lemma {:induction false} Acts(s: St, a: LifeStep)
    requires LifeEnabled(s, a)
    ensures a.p < |s.pr|
  {
  }

  // ----- sleepers -----

  /** This step wakes q, which sleeps on ch: a wakeup of ch that has come to q, or kill. */
  predicate Wakes(s: St, a: Action, q: nat, ch: Chan) {
    a.Syncs? && ((a.y.Kill? && a.y.i == q)
      || (a.y.Wake? && a.y.p < |s.pr| && a.y.p != q && s.pr[a.y.p].pc.Waking? && s.pr[a.y.p].pc.ch == ch
          && s.pr[a.y.p].pc.j == q))
  }

  lemma {:induction false} SyncWakes(s: St, a: SyncStep, q: nat, ch: Chan)
    requires Inv(s) && SyncEnabled(s, a) && q < |s.pr| && s.pr[q].state == SLEEPING && s.pr[q].chan == Some(ch)
    ensures q < |DoSync(s, a).pr|
    ensures DoSync(s, a).pr[q].state == if Wakes(s, Syncs(a), q, ch) then RUNNABLE else SLEEPING
  {
    assert Basic(s, q) && Basic(s, a.p);
    hide Inv, Links, PcFits;
  }

  lemma {:induction false} CpuSleeps(s: St, a: CpuStep, q: nat)
    requires Inv(s) && CpuEnabled(s, a) && q < |s.pr| && s.pr[q].state == SLEEPING
    ensures q < |DoCpu(s, a).pr| && DoCpu(s, a).pr[q].state == SLEEPING
  {
    assert Basic(s, q);
    hide Inv, Links, PcFits;
  }

  lemma {:induction false} LifeSleeps(s: St, a: LifeStep, q: nat)
    requires Inv(s) && LifeEnabled(s, a) && q < |s.pr| && s.pr[q].state == SLEEPING
    ensures q < |DoLife(s, a).pr| && DoLife(s, a).pr[q].state == SLEEPING
  {
    assert Basic(s, q) && Basic(s, a.p);
    if a.ForkFail? || a.ForkParent? || a.ForkGo? { assert Basic(s, s.pr[a.p].ctx.i); }
    hide Inv, PlaceAt, HeldAt, ParentAt, PcFits;
  }

  lemma {:induction false} LogSleeps(s: St, a: LogStep, q: nat)
    requires Inv(s) && LogEnabled(s, a) && q < |s.pr| && s.pr[q].state == SLEEPING
    ensures q < |DoLog(s, a).pr| && DoLog(s, a).pr[q].state == SLEEPING
  {
    hide Inv;
  }

  /** In every run a sleeper becomes runnable exactly when wakeup of its channel comes to
      it or it is killed. */
  lemma {:induction false} SleepsUntilWoken(states: seq<St>, actions: seq<Action>, k: nat, q: nat, ch: Chan)
    requires Run(states, actions) && k < |actions| && q < |states[k].pr|
    requires states[k].pr[q].state == SLEEPING && states[k].pr[q].chan == Some(ch)
    ensures q < |states[k + 1].pr|
    ensures states[k + 1].pr[q].state == if Wakes(states[k], actions[k], q, ch) then RUNNABLE else SLEEPING
  {
    var s, a := states[k], actions[k];
    StepOf(states, actions, k);
    RunKeeps(states, actions, k);
    hide Run, Inv, LifeEnabled, SyncEnabled, CpuEnabled, LogEnabled, DoLife, DoSync, DoCpu, DoLog;
    match a
    case Cpus(c) => CpuSleeps(s, c, q);
    case Syncs(y) => SyncWakes(s, y, q, ch);
    case Lives(f) => LifeSleeps(s, f, q);
    case Logs(g) => LogSleeps(s, g, q);
  }

  // ----- sleeplocks -----

  /** Who has sleeplock l, by the history alone. */
  function Holder(states: seq<St>, actions: seq<Action>, k: nat, l: nat): (h: Option<nat>)
    requires k <= |actions| && k <= |states|
  {
    if k == 0 then None
    else
      var s, a := states[k - 1], actions[k - 1];
      if a.Syncs? && Takes(s, a, l, a.y.p) then Some(a.y.p)
      else if Releases(s, a, l) then None
      else Holder(states, actions, k - 1, l)
  }

  lemma {:induction false} LockedStep(s: St, a: Action, l: nat)
    requires Enabled(s, a)
    ensures var h := if l in s.locked then Some(s.locked[l]) else None;
      (if l in Do(s, a).locked then Some(Do(s, a).locked[l]) else None) ==
        if a.Syncs? && Takes(s, a, l, a.y.p) then Some(a.y.p)
        else if Releases(s, a, l) then None
        else h
  {
  }

  /** In every run a sleeplock is held exactly by who took it last and has not released
      it since. */
  lemma {:induction false} LockedExact(states: seq<St>, actions: seq<Action>, k: nat, l: nat)
    requires Run(states, actions) && k < |states|
    ensures (if l in states[k].locked then Some(states[k].locked[l]) else None) == Holder(states, actions, k, l)
  {
    if k > 0 {
      StepOf(states, actions, k - 1);
      LockedExact(states, actions, k - 1, l);
      hide Run, Enabled, Do, Takes, Releases;
      LockedStep(states[k - 1], actions[k - 1], l);
    }
  }

  // ----- operations of the log -----

  /** Operations begun and not ended, and who commits, by the history alone: the last
      end_op makes its caller the committer until the commit is over. */
  function OpsOf(actions: seq<Action>, k: nat): (n: int)
    requires k <= |actions|
  {
    if k == 0 then 0
    else if actions[k - 1].Logs? && actions[k - 1].g.BeginOp? then OpsOf(actions, k - 1) + 1
    else if actions[k - 1].Logs? && actions[k - 1].g.EndOp? then OpsOf(actions, k - 1) - 1
    else OpsOf(actions, k - 1)
  }

  function CommitterOf(actions: seq<Action>, k: nat): (c: Option<nat>)
    requires k <= |actions|
  {
    if k == 0 then None
    else if actions[k - 1].Logs? && actions[k - 1].g.EndOp? && OpsOf(actions, k) == 0 then Some(actions[k - 1].g.p)
    else if actions[k - 1].Logs? && actions[k - 1].g.CommitDone? then None
    else CommitterOf(actions, k - 1)
  }

  /** The blocks listed in the log. */
  function LengthOf(actions: seq<Action>, k: nat): (n: nat)
    requires k <= |actions|
  {
    if k == 0 then 0
    else if actions[k - 1].Logs? && actions[k - 1].g.Append? then LengthOf(actions, k - 1) + 1
    else if actions[k - 1].Logs? && actions[k - 1].g.EraseLog? then 0
    else LengthOf(actions, k - 1)
  }

  predicate SameLog(s: St, s': St) {
    s'.n == s.n && s'.outstanding == s.outstanding && s'.committer == s.committer
  }

  lemma {:induction false} CpuLog(s: St, a: CpuStep)
    requires CpuEnabled(s, a)
    ensures SameLog(s, DoCpu(s, a))
  {
  }

  lemma {:induction false} SyncLog(s: St, a: SyncStep)
    requires SyncEnabled(s, a)
    ensures SameLog(s, DoSync(s, a))
  {
    hide LogBusy, OwnLocked;
  }

  lemma {:induction false} LifeLog(s: St, a: LifeStep)
    requires LifeEnabled(s, a)
    ensures SameLog(s, DoLife(s, a))
  {
    hide OwnLocked;
  }

  lemma {:induction false} LogLog(s: St, a: LogStep)
    requires LogEnabled(s, a)
    ensures DoLog(s, a).n == if a.Append? then s.n + 1 else if a.EraseLog? then 0 else s.n
    ensures s.n <= LOGSIZE ==> DoLog(s, a).n <= LOGSIZE
    ensures DoLog(s, a).outstanding ==
      if a.BeginOp? then s.outstanding + 1 else if a.EndOp? then s.outstanding - 1 else s.outstanding
    ensures DoLog(s, a).committer ==
      if a.EndOp? && s.outstanding == 1 then Some(a.p) else if a.CommitDone? then None else s.committer
  {
    hide LogBusy;
  }

  /** In every run outstanding counts the operations in progress, and a commit runs from
      the end_op that takes it to 0 until that thread has finished the commit; the log
      never lists more than LOGSIZE blocks. */
  lemma {:induction false} LogCounts(states: seq<St>, actions: seq<Action>, k: nat)
    requires Run(states, actions) && k < |states|
    ensures states[k].outstanding == OpsOf(actions, k) && states[k].committer == CommitterOf(actions, k)
    ensures states[k].n == LengthOf(actions, k) <= LOGSIZE
  {
    if k > 0 {
      StepOf(states, actions, k - 1);
      LogCounts(states, actions, k - 1);
      var s := states[k - 1];
      hide Run, CpuEnabled, SyncEnabled, LifeEnabled, LogEnabled, DoCpu, DoSync, DoLife, DoLog;
      match actions[k - 1]
      case Cpus(a) => CpuLog(s, a);
      case Syncs(a) => SyncLog(s, a);
      case Lives(a) => LifeLog(s, a);
      case Logs(a) => LogLog(s, a);
    }
  }
}
