/** begin_op's reservation law in the full machine: with crashes, commits and any
    number of threads, log_write's panic on a block new to its operation can happen
    exactly if the log has at most LOGSIZE blocks. */
module LogSpace {
  import opened Bytes
  import opened LogFormat
  import opened LogMachine
  import opened LogInvariant
  import opened LogTheorems
  import opened LogFill
  import Budget = LogBudget

  /** What the operation of each thread has logged, if it runs one. */
  ghost function Ops(threads: seq<Thread>, trace: seq<Event>): (r: seq<Option<set<nat>>>)
    ensures |r| == |threads|
  {
    seq(|threads|, t requires 0 <= t < |threads| => if threads[t].inOp then Some(Written(trace, t)) else None)
  }

  ghost function SpaceOf(s: State): (r: Budget.Space) { Budget.Space(s.lh, Ops(s.threads, s.trace)) }

  lemma {:induction false} OpsCount(threads: seq<Thread>, trace: seq<Event>)
    ensures Budget.Outstanding(Ops(threads, trace)) == |InOp(threads)|
  {
    if threads == [] {
      assert InOp(threads) == {};
    } else {
      var n := |threads| - 1;
      OpsCount(threads[..n], trace);
      assert Ops(threads, trace)[..n] == Ops(threads[..n], trace);
      assert InOp(threads) == InOp(threads[..n]) + if threads[n].inOp then {n} else {};
    }
  }

  // ----- steps that do not change the log's list or an operation -----

  predicate SpaceStep(a: Action) {
    a.BeginOp? || a.LogWrite? || a.EndOp? || a.StartErase? || a.Crash? || a.LoadHead?
  }

  lemma {:induction false} SpaceKept(g: Geometry, s: State, a: Action)
    requires Enabled(g, s, a) && !SpaceStep(a)
    ensures SpaceOf(Do(g, s, a)) == SpaceOf(s) && Do(g, s, a).trace == s.trace
  {
    var s' := Do(g, s, a);
    assert |s'.threads| == |s.threads| && s'.lh == s.lh && s'.trace == s.trace;
    assert forall t :: 0 <= t < |s.threads| ==> s'.threads[t].inOp == s.threads[t].inOp;
    assert Ops(s'.threads, s'.trace) == Ops(s.threads, s.trace);
  }

  // ----- steps of operations -----

  /** Thread t starts or ends an operation or logs a block, by event e. */
  lemma {:induction false} OpsNext(threads: seq<Thread>, t: nat, th: Thread, trace: seq<Event>, e: Event)
    requires t < |threads| && e.t == t
    ensures Ops(threads[t := th], trace + [e]) ==
      Ops(threads, trace)[t := if th.inOp then Some(Written(trace + [e], t)) else None]
  {
    forall u: nat | u < |threads| && u != t ensures Written(trace + [e], u) == Written(trace, u) {
      WrittenNext(trace, e, u);
    }
  }

  lemma {:induction false} BeginFits(g: Geometry, boot: Disk, s: State, t: nat)
    requires Inv(g, boot, s) && Enabled(g, s, BeginOp(t)) && Budget.Fits(SpaceOf(s))
    ensures Budget.Fits(SpaceOf(AfterBeginOp(s, t)))
  {
    OpsCount(s.threads, s.trace);
    OpsNext(s.threads, t, s.threads[t].(inOp := true), s.trace, Begin(t));
    WrittenNext(s.trace, Begin(t), t);
    hide Inv, Budget.Fits;
    assert SpaceOf(AfterBeginOp(s, t)) == Budget.Do(g.size, SpaceOf(s), Budget.BeginOp(t));
    Budget.StepFits(g.size, SpaceOf(s), Budget.BeginOp(t));
  }

  lemma {:induction false} EndFits(g: Geometry, s: State, t: nat)
    requires Enabled(g, s, EndOp(t)) && Budget.Fits(SpaceOf(s))
    ensures Budget.Fits(SpaceOf(AfterEndOp(s, t)))
  {
    OpsNext(s.threads, t, s.threads[t].(inOp := false), s.trace, End(t));
    hide Budget.Fits;
    assert SpaceOf(AfterEndOp(s, t)) == Budget.Do(g.size, SpaceOf(s), Budget.EndOp(t));
    Budget.StepFits(g.size, SpaceOf(s), Budget.EndOp(t));
  }

  lemma {:induction false} LogWriteFits(g: Geometry, s: State, t: nat, i: nat)
    requires Enabled(g, s, LogWrite(t, i)) && Budget.Fits(SpaceOf(s))
    requires InBudget(AfterLogWrite(s, t, i).trace)
    ensures Budget.Fits(SpaceOf(AfterLogWrite(s, t, i)))
  {
    var b: U32, e := s.bufs[i].blockno, Write(t, s.bufs[i].blockno, s.bufs[i].data);
    OpsNext(s.threads, t, s.threads[t], s.trace, e);
    WrittenNext(s.trace, e, t);
    InBudgetNext(s.trace, e);
    assert s.threads[t := s.threads[t]] == s.threads;
    hide Budget.Fits;
    assert SpaceOf(AfterLogWrite(s, t, i)) == Budget.Do(g.size, SpaceOf(s), Budget.LogWrite(t, b));
    Budget.StepFits(g.size, SpaceOf(s), Budget.LogWrite(t, b));
  }

  // ----- steps of commit, crash and recovery -----

  lemma {:induction false} NoneReserved(ops: seq<Option<set<nat>>>)
    requires forall t :: 0 <= t < |ops| ==> ops[t].None?
    ensures Budget.Reserved(ops) == 0
  {
    if ops != [] { NoneReserved(ops[..|ops| - 1]); }
  }

  /** Without operations, any list that fits the header fits. */
  lemma {:induction false} NoOpsFit(s: State)
    requires InOp(s.threads) == {} && |s.lh| <= LOGSIZE
    ensures Budget.Fits(SpaceOf(s))
  {
    forall t: nat | t < |s.threads| ensures !s.threads[t].inOp {
      assert s.threads[t].inOp ==> t in InOp(s.threads);
    }
    NoneReserved(Ops(s.threads, s.trace));
  }

  lemma {:induction false} QuietStep(g: Geometry, boot: Disk, s: State, a: Action)
    requires Inv(g, boot, s) && Enabled(g, s, a) && (a.StartErase? || a.Crash? || a.LoadHead?)
    ensures InOp(Do(g, s, a).threads) == {} && |Do(g, s, a).lh| <= LOGSIZE
  {
    hide CacheInv, TraceOk, DiskOk;
  }

  lemma {:induction false} StepFits(g: Geometry, boot: Disk, s: State, a: Action)
    requires Inv(g, boot, s) && Enabled(g, s, a) && InBudget(Do(g, s, a).trace)
    requires InBudget(s.trace) ==> Budget.Fits(SpaceOf(s))
    ensures Budget.Fits(SpaceOf(Do(g, s, a)))
  {
    hide Inv, Budget.Fits, SpaceOf, InBudget;
    if !SpaceStep(a) {
      SpaceKept(g, s, a);
    } else if a.StartErase? || a.Crash? || a.LoadHead? {
      QuietStep(g, boot, s, a);
      NoOpsFit(Do(g, s, a));
    } else {
      assert InBudget(s.trace) by { InBudgetNext(s.trace, Do(g, s, a).trace[|s.trace|]); }
      match a
      case BeginOp(t) => BeginFits(g, boot, s, t);
      case LogWrite(t, i) => LogWriteFits(g, s, t, i);
      case EndOp(t) => EndFits(g, s, t);
    }
  }

  lemma {:induction false} RunFits(g: Geometry, boot: Disk, s: State, acts: seq<Action>, s': State)
    requires Inv(g, boot, s) && Run(g, s, acts, s') && (InBudget(s.trace) ==> Budget.Fits(SpaceOf(s)))
    ensures InBudget(s'.trace) ==> Budget.Fits(SpaceOf(s'))
    decreases |acts|
  {
    hide Inv, Budget.Fits, SpaceOf, InBudget, Enabled, Do;
    if acts != [] {
      var s1 := Do(g, s, acts[0]);
      StepKeepsInv(g, boot, s, acts[0]);
      if InBudget(s1.trace) { StepFits(g, boot, s, acts[0]); }
      RunFits(g, boot, s1, acts[1..], s');
    }
  }

  // ----- main results -----

  /** Thread t holds buffer i and its operation, which has budget left, is about to
      log the block for the first time. */
  ghost predicate Fresh(g: Geometry, s: State, t: nat, i: nat) {
    && i < |s.bufs| && HoldsBlock(s, t, i, s.bufs[i].blockno) && s.threads[t].inOp && Home(g, s.bufs[i].blockno)
    && s.bufs[i].blockno !in Written(s.trace, t) && |Written(s.trace, t)| < MAXOPBLOCKS
  }

  /** In every run on a log of more than LOGSIZE blocks in which the operations keep to
      their budgets, log_write of a block new to its operation does not panic. */
  lemma {:induction false} FreshBlockEnabled(g: Geometry, boot: Disk, s0: State, acts: seq<Action>, s: State,
      t: nat, i: nat)
    requires Init(g, boot, s0) && Run(g, s0, acts, s) && InBudget(s.trace) && g.size > LOGSIZE && Fresh(g, s, t, i)
    ensures Enabled(g, s, LogWrite(t, i))
  {
    InitInv(g, boot, s0);
    assert InOp(s0.threads) == {};
    NoOpsFit(s0);
    RunKeepsInv(g, boot, s0, acts, s);
    RunFits(g, boot, s0, acts, s);
    Budget.ReservedAtLeast(Ops(s.threads, s.trace), t);
    assert t in InOp(s.threads);
  }

  ghost predicate PanicAt(g: Geometry, disk: Disk, acts: seq<Action>, s: State, t: nat, i: nat) {
    && Run(g, PowerOn(disk), acts, s) && InBudget(s.trace)
    && Fresh(g, s, t, i) && !Enabled(g, s, LogWrite(t, i))
  }

  ghost predicate CanPanic(g: Geometry, disk: Disk) {
    exists acts: seq<Action>, s: State, t: nat, i: nat :: PanicAt(g, disk, acts, s, t, i)
  }

  lemma {:induction false} WrittenBelow(g: Geometry, s: State, n: nat, t: nat)
    requires Idling(g, s) && n <= NBUF && First(g) + NBUF <= g.blocks && Written(s.trace, t) == {}
    ensures forall b :: b in Written(Filled(g, s, n).trace, t) ==> b < First(g) + n
  {
    if n > 0 {
      WrittenBelow(g, s, n - 1, t);
      var r, b := Filled(g, s, n - 1), First(g) + n - 1;
      WrittenNext(r.trace, Write((n - 1) / MAXOPBLOCKS, b, r.disk[b]), t);
    }
  }

  lemma {:induction false} FetchedFresh(g: Geometry, s: State, n: nat)
    requires Idling(g, s) && n < NBUF && First(g) + NBUF <= g.blocks && Written(s.trace, n / MAXOPBLOCKS) == {}
    ensures Fresh(g, Fetched(Filled(g, s, n), n / MAXOPBLOCKS, n, First(g) + n), n / MAXOPBLOCKS, n)
    ensures n == g.size - 1 ==>
      !Enabled(g, Fetched(Filled(g, s, n), n / MAXOPBLOCKS, n, First(g) + n), LogWrite(n / MAXOPBLOCKS, n))
  {
    var t := n / MAXOPBLOCKS;
    FilledIs(g, s, n);
    WrittenBelow(g, s, n, t);
    ShareOf(g, s, n, t);
    hide Filled, Written;
  }

  lemma {:induction false} PanickingRun(g: Geometry, disk: Disk)
    requires Clean(g, disk) && First(g) + NBUF <= g.blocks && g.size <= LOGSIZE
    ensures CanPanic(g, disk)
  {
    hide InBudget, Run, Started, Filled, PowerOn, Idling, Fresh, Enabled, Clean, CanFetch, Written, Caches;
    var s, n := Started(g, disk), g.size - 1;
    var t, f := n / MAXOPBLOCKS, Filled(g, s, n);
    FillRun(g, disk, n);
    StartedIdles(g, disk);
    FilledInBudget(g, s, n);
    NextUnused(g, s, n);
    Fetch(g, f, t, n, First(g) + n);
    FetchedFresh(g, s, n);
    var r := Fetched(f, t, n, First(g) + n);
    RunCat(g, PowerOn(disk), AllSteps(g, n), f, FetchSteps(t, n, First(g) + n), r);
    assert PanicAt(g, disk, AllSteps(g, n) + FetchSteps(t, n, First(g) + n), r, t, n);
  }

  /** From power-on with a clean log, operations within their budgets can meet the panic
      on a new block exactly if the log has at most LOGSIZE blocks. */
  lemma {:induction false} PanicExact(g: Geometry, disk: Disk)
    requires Clean(g, disk) && First(g) + NBUF <= g.blocks
    ensures CanPanic(g, disk) <==> g.size <= LOGSIZE
  {
    if g.size <= LOGSIZE {
      PanickingRun(g, disk);
    } else {
      PowerOnInit(g, disk);
      hide Run, InBudget, Fresh, Enabled, PowerOn;
      forall acts: seq<Action>, s: State, t: nat, i: nat ensures !PanicAt(g, disk, acts, s, t, i) {
        if PanicAt(g, disk, acts, s, t, i) { FreshBlockEnabled(g, disk, PowerOn(disk), acts, s, t, i); }
      }
    }
  }
}
