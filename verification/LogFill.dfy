/** A commit that finds no buffer. Three operations, each within its budget of
    MAXOPBLOCKS, can log LOGSIZE blocks; since NBUF equals LOGSIZE every buffer is then
    pinned and write_log has none to read a log block into. This happens exactly if
    the log has more than LOGSIZE blocks. */
module LogFill {
  import opened Bytes
  import opened LogFormat
  import opened LogMachine
  import opened LogInvariant
  import opened LogTheorems

  lemma {:induction false} RunCat(g: Geometry, s: State, a: seq<Action>, s1: State, b: seq<Action>, s2: State)
    requires Run(g, s, a, s1) && Run(g, s1, b, s2)
    ensures Run(g, s, a + b, s2)
    decreases |a|
  {
    hide Enabled, Do;
    if a == [] {
      assert a + b == b;
    } else {
      RunCat(g, Do(g, s, a[0]), a[1..], s1, b, s2);
      assert (a + b)[1..] == a[1..] + b;
    }
  }

  lemma {:induction false} RunOne(g: Geometry, s: State, acts: seq<Action>, s1: State, a: Action)
    requires Run(g, s, acts, s1) && Enabled(g, s1, a)
    ensures Run(g, s, acts + [a], Do(g, s1, a))
  {
    hide Enabled, Do;
    var s2 := Do(g, s1, a);
    assert [a][1..] == [];
    assert Run(g, s2, [], s2);
    RunCat(g, s, acts, s1, [a], s2);
  }

  // ----- power-on with a clean log -----

  predicate Clean(g: Geometry, disk: Disk) {
    GoodLog(g, disk) && GetHead(disk[g.start]) == []
  }

  ghost function PowerOn(disk: Disk): (s: State) {
    State(disk, seq(NBUF, _ => FRESH_BUF), seq(3, _ => FRESH_THREAD), [], 0, false, Booting, 0, [], 0)
  }

  lemma {:induction false} PowerOnInit(g: Geometry, disk: Disk)
    requires Clean(g, disk)
    ensures Init(g, disk, PowerOn(disk))
  {
  }

  /** Thread t gets block b into buffer i, which is unused, and reads it. */
  ghost function Fetched(s: State, t: nat, i: nat, b: nat): (r: State)
    requires t < |s.threads| && i < |s.bufs| && b < |s.disk|
  {
    s.(bufs := s.bufs[i := Buf(ROOTDEV, b, true, 1, s.disk[b], Some(t), s.bufs[i].dirty)],
       threads := s.threads[t := s.threads[t].(held := {i})])
  }

  ghost predicate Uncached(bufs: seq<Buf>, b: nat) {
    forall j: nat :: !Caches(bufs, j, b)
  }

  ghost predicate CanFetch(g: Geometry, s: State, t: nat, i: nat, b: nat) {
    && |s.disk| == g.blocks && b < g.blocks && i < |s.bufs| && s.bufs[i].refcnt == 0 && s.bufs[i].owner == None
    && t < |s.threads| && s.threads[t] == Thread(s.threads[t].inOp, None, {}, None)
    && Uncached(s.bufs, b)
  }

  function FetchSteps(t: nat, i: nat, b: nat): (acts: seq<Action>) {
    [BgetMiss(t, i, b), Acquire(t, i), ReadBlock(t, i)]
  }

  lemma {:induction false} Fetch(g: Geometry, s: State, t: nat, i: nat, b: nat)
    requires CanFetch(g, s, t, i, b)
    ensures Run(g, s, FetchSteps(t, i, b), Fetched(s, t, i, b))
  {
    var s1 := AfterMiss(s, t, i, b);
    var s2 := AfterAcquire(s1, t, i);
    var s3 := AfterRead(s2, i);
    assert Enabled(g, s, BgetMiss(t, i, b)) && Enabled(g, s1, Acquire(t, i)) && Enabled(g, s2, ReadBlock(t, i));
    assert s2.threads[t].held == {i};
    assert s3.bufs == Fetched(s, t, i, b).bufs && s3.threads == Fetched(s, t, i, b).threads;
    RunThree(g, s, BgetMiss(t, i, b), s1, Acquire(t, i), s2, ReadBlock(t, i), s3);
  }

  lemma {:induction false} RunThree(g: Geometry, s: State, a: Action, s1: State, b: Action, s2: State, c: Action,
      s3: State)
    requires Enabled(g, s, a) && Do(g, s, a) == s1 && Enabled(g, s1, b) && Do(g, s1, b) == s2
    requires Enabled(g, s2, c) && Do(g, s2, c) == s3
    ensures Run(g, s, [a, b, c], s3)
  {
    hide Enabled, Do;
    assert Run(g, s, [], s);
    RunOne(g, s, [], s, a);
    RunOne(g, s, [a], s1, b);
    RunOne(g, s, [a, b], s2, c);
    assert [] + [a] == [a] && [a] + [b] == [a, b] && [a, b] + [c] == [a, b, c];
  }

  // ----- one block -----

  /** Thread t logs block b through buffer i. */
  ghost function OneLogged(s: State, t: nat, i: nat, b: U32): (r: State)
    requires t < |s.threads| && i < |s.bufs| && b < |s.disk|
  {
    s.(bufs := s.bufs[i := Buf(ROOTDEV, b, true, 1, s.disk[b], None, false)], lh := s.lh + [b],
       trace := s.trace + [Write(t, b, s.disk[b])])
  }

  function LogSteps(t: nat, i: nat): (acts: seq<Action>) { [LogWrite(t, i), Unlock(t, i), Unref(t, i)] }

  lemma {:induction false} LogFetched(g: Geometry, s: State, t: nat, i: nat, b: U32)
    requires CanFetch(g, s, t, i, b) && s.threads[t].inOp && Home(g, b) && b !in s.lh
    requires |s.lh| < LOGSIZE && |s.lh| < g.size - 1 && s.outstanding >= 1
    ensures Run(g, Fetched(s, t, i, b), LogSteps(t, i), OneLogged(s, t, i, b))
  {
    var s1 := Fetched(s, t, i, b);
    var s2 := AfterLogWrite(s1, t, i);
    var s3 := AfterUnlock(s2, t, i);
    var s4 := AfterUnref(s3, t, i);
    assert Enabled(g, s1, LogWrite(t, i)) && Enabled(g, s2, Unlock(t, i)) && Enabled(g, s3, Unref(t, i));
    assert s3.threads[t].held == {};
    assert s4.threads == s.threads && s4.bufs == OneLogged(s, t, i, b).bufs;
    RunThree(g, s1, LogWrite(t, i), s2, Unlock(t, i), s3, Unref(t, i), s4);
  }

  lemma {:induction false} LogOne(g: Geometry, s: State, t: nat, i: nat, b: U32)
    requires CanFetch(g, s, t, i, b) && s.threads[t].inOp && Home(g, b) && b !in s.lh
    requires |s.lh| < LOGSIZE && |s.lh| < g.size - 1 && s.outstanding >= 1
    ensures Run(g, s, FetchSteps(t, i, b) + LogSteps(t, i), OneLogged(s, t, i, b))
  {
    Fetch(g, s, t, i, b);
    LogFetched(g, s, t, i, b);
    RunCat(g, s, FetchSteps(t, i, b), Fetched(s, t, i, b), LogSteps(t, i), OneLogged(s, t, i, b));
  }

  // ----- boot -----

  /** After boot, three operations have begun. */
  ghost function Started(g: Geometry, disk: Disk): (s: State)
    requires Clean(g, disk)
    ensures |s.threads| == 3 && |s.bufs| == NBUF && |s.disk| == g.blocks
  {
    var h := PutHead(disk[g.start], []);
    State(disk[g.start := h], seq(NBUF, _ => FRESH_BUF)[0 := Buf(ROOTDEV, g.start, true, 0, h, None, false)],
          seq(3, _ => FRESH_THREAD.(inOp := true)), [], 3, false, Running, 0, [Begin(0), Begin(1), Begin(2)], 0)
  }

  function BootSteps(b: nat): (acts: seq<Action>) {
    FetchSteps(0, 0, b) + [LoadHead(0), StartErase, EraseHead(0)]
  }

  /** Recovery of a clean log, while thread 0 still holds the header's buffer. */
  ghost function Recovering(g: Geometry, disk: Disk): (s: State)
    requires Clean(g, disk)
  {
    var h := PutHead(disk[g.start], []);
    var s := Fetched(PowerOn(disk), 0, 0, g.start);
    s.(disk := disk[g.start := h], bufs := s.bufs[0 := s.bufs[0].(data := h)], phase := Running)
  }

  lemma {:induction false} Boot(g: Geometry, disk: Disk)
    requires Clean(g, disk)
    ensures Run(g, PowerOn(disk), BootSteps(g.start), Recovering(g, disk))
  {
    var s0 := PowerOn(disk);
    Fetch(g, s0, 0, 0, g.start);
    var s1 := Fetched(s0, 0, 0, g.start);
    var s2 := s1.(lh := [], phase := Replaying(0));
    var s3 := AfterStartErase(s2);
    var s4 := AfterErase(s3, 0);
    assert Enabled(g, s1, LoadHead(0)) && Enabled(g, s2, StartErase) && Enabled(g, s3, EraseHead(0));
    assert s4 == Recovering(g, disk);
    RunThree(g, s1, LoadHead(0), s2, StartErase, s3, EraseHead(0), s4);
    RunCat(g, s0, FetchSteps(0, 0, g.start), s1, [LoadHead(0), StartErase, EraseHead(0)], s4);
  }

  const BEGIN_STEPS: seq<Action> := [Unlock(0, 0)] + [Unref(0, 0)] + [BeginOp(0), BeginOp(1), BeginOp(2)]

  /** The buffer of the header is released. */
  ghost function Booted(g: Geometry, disk: Disk): (s: State)
    requires Clean(g, disk)
  {
    Started(g, disk).(threads := seq(3, _ => FRESH_THREAD), outstanding := 0, trace := [])
  }

  lemma {:induction false} Release(g: Geometry, disk: Disk)
    requires Clean(g, disk)
    ensures Enabled(g, Recovering(g, disk), Unlock(0, 0))
    ensures Enabled(g, AfterUnlock(Recovering(g, disk), 0, 0), Unref(0, 0))
    ensures AfterUnref(AfterUnlock(Recovering(g, disk), 0, 0), 0, 0) == Booted(g, disk)
  {
    var s1 := AfterUnlock(Recovering(g, disk), 0, 0);
    assert s1.threads[0].held == {};
    var s2 := AfterUnref(s1, 0, 0);
    assert s2.bufs == Booted(g, disk).bufs && s2.threads == Booted(g, disk).threads;
  }

  lemma {:induction false} Begins(g: Geometry, disk: Disk)
    requires Clean(g, disk)
    ensures Run(g, Booted(g, disk), [BeginOp(0), BeginOp(1), BeginOp(2)], Started(g, disk))
  {
    var s2 := Booted(g, disk);
    var s3 := AfterBeginOp(s2, 0);
    var s4 := AfterBeginOp(s3, 1);
    var s5 := AfterBeginOp(s4, 2);
    assert s5.threads == Started(g, disk).threads && s5.trace == Started(g, disk).trace;
    RunThree(g, s2, BeginOp(0), s3, BeginOp(1), s4, BeginOp(2), s5);
  }

  lemma {:induction false} BeginThree(g: Geometry, disk: Disk)
    requires Clean(g, disk)
    ensures Run(g, Recovering(g, disk), BEGIN_STEPS, Started(g, disk))
  {
    var s0 := Recovering(g, disk);
    var s1 := AfterUnlock(s0, 0, 0);
    var s2 := Booted(g, disk);
    Release(g, disk);
    Begins(g, disk);
    assert Do(g, s0, Unlock(0, 0)) == s1 && Do(g, s1, Unref(0, 0)) == s2;
    hide Enabled, Do, Recovering, Booted, Started, AfterUnlock, AfterUnref;
    assert Run(g, s0, [], s0) && [] + [Unlock(0, 0)] == [Unlock(0, 0)];
    RunOne(g, s0, [], s0, Unlock(0, 0));
    RunOne(g, s0, [Unlock(0, 0)], s1, Unref(0, 0));
    RunCat(g, s0, [Unlock(0, 0)] + [Unref(0, 0)], s2, [BeginOp(0), BeginOp(1), BeginOp(2)], Started(g, disk));
  }

  // ----- all blocks -----

  /** The first home block after the log. */
  function First(g: Geometry): (b: nat) { g.start + g.size }

  /** The operations have logged n blocks between them, MAXOPBLOCKS each. */
  ghost function Filled(g: Geometry, s: State, n: nat): (r: State)
    requires |s.threads| == 3 && |s.bufs| == NBUF && |s.disk| == g.blocks && n <= NBUF && First(g) + n <= g.blocks
    ensures |r.threads| == 3 && |r.bufs| == NBUF && r.disk == s.disk
  {
    if n == 0 then s else OneLogged(Filled(g, s, n - 1), (n - 1) / MAXOPBLOCKS, n - 1, First(g) + n - 1)
  }

  function FillSteps(g: Geometry, n: nat): (acts: seq<Action>) {
    if n == 0 then [] else FillSteps(g, n - 1) + FillStep(g, n - 1)
  }

  function FillStep(g: Geometry, n: nat): (acts: seq<Action>) {
    FetchSteps(n / MAXOPBLOCKS, n, First(g) + n) + LogSteps(n / MAXOPBLOCKS, n)
  }

  ghost predicate Listed(g: Geometry, s: State, r: State, n: nat) {
    && r == s.(bufs := r.bufs, lh := r.lh, trace := r.trace)
    && |r.lh| == n && forall k :: 0 <= k < n ==> r.lh[k] == First(g) + k
  }

  predicate BufIs(g: Geometry, s: State, r: State, n: nat, i: nat) {
    i < |s.bufs| && i < |r.bufs| && First(g) + i < |s.disk| ==>
      r.bufs[i] == if i < n then Buf(ROOTDEV, First(g) + i, true, 1, s.disk[First(g) + i], None, false) else s.bufs[i]
  }

  lemma {:induction false} FilledIs(g: Geometry, s: State, n: nat)
    requires |s.threads| == 3 && |s.bufs| == NBUF && |s.disk| == g.blocks && n <= NBUF && First(g) + NBUF <= g.blocks
    requires s.lh == []
    ensures Listed(g, s, Filled(g, s, n), n)
    ensures forall i: nat {:trigger BufIs(g, s, Filled(g, s, n), n, i)} :: BufIs(g, s, Filled(g, s, n), n, i)
  {
    if n > 0 {
      FilledIs(g, s, n - 1);
      var r := Filled(g, s, n);
      forall i: nat ensures BufIs(g, s, r, n, i) {
        assert BufIs(g, s, Filled(g, s, n - 1), n - 1, i);
      }
    }
  }

  /** Three operations are running and no buffer is in use. */
  ghost predicate Idling(g: Geometry, s: State) {
    && |s.disk| == g.blocks && |s.bufs| == NBUF && s.lh == [] && s.outstanding == 3 && !s.committing
    && s.threads == seq(3, _ => FRESH_THREAD.(inOp := true))
    && forall i :: 0 <= i < NBUF ==> IdleBuf(g, s.bufs[i])
  }

  predicate IdleBuf(g: Geometry, buf: Buf) {
    buf.refcnt == 0 && buf.owner == None && (buf.dev == ROOTDEV ==> buf.blockno < First(g))
  }

  /** The next buffer and the next block are unused. */
  lemma {:induction false} NextUnused(g: Geometry, s: State, n: nat)
    requires Idling(g, s) && First(g) + NBUF <= g.blocks && n < NBUF
    ensures CanFetch(g, Filled(g, s, n), n / MAXOPBLOCKS, n, First(g) + n)
  {
    var b := First(g) + n;
    FilledIs(g, s, n);
    var r := Filled(g, s, n);
    forall j: nat ensures !Caches(r.bufs, j, b) {
      assert BufIs(g, s, r, n, j);
      assert j < NBUF ==> IdleBuf(g, s.bufs[j]);
    }
    assert BufIs(g, s, r, n, n) && IdleBuf(g, s.bufs[n]);
  }

  lemma {:induction false} FillNext(g: Geometry, s: State, n: nat)
    requires Idling(g, s) && First(g) + NBUF <= g.blocks && n < NBUF && n < g.size - 1
    ensures Run(g, Filled(g, s, n), FillStep(g, n), Filled(g, s, n + 1))
  {
    FilledIs(g, s, n);
    NextUnused(g, s, n);
    hide Run, CanFetch;
    LogOne(g, Filled(g, s, n), n / MAXOPBLOCKS, n, First(g) + n);
  }

  lemma {:induction false} Fill(g: Geometry, s: State, n: nat)
    requires Idling(g, s) && First(g) + NBUF <= g.blocks && n <= NBUF && n < g.size
    ensures Run(g, s, FillSteps(g, n), Filled(g, s, n))
  {
    if n > 0 {
      Fill(g, s, n - 1);
      FillNext(g, s, n - 1);
      hide Run, Filled, FillStep;
      RunCat(g, s, FillSteps(g, n - 1), Filled(g, s, n - 1), FillStep(g, n - 1), Filled(g, s, n));
    }
  }

  // ----- the commit -----

  /** The committer needs a buffer for a log block, no thread uses any buffer, and yet
      bget panics: the block is not cached and every buffer is referenced. */
  ghost predicate Starved(g: Geometry, s: State) {
    && s.phase.LogBlocks? && s.phase.tail < |s.lh|
    && (forall i: nat :: i < |s.bufs| ==> Uses(s.threads, i) == 0 && s.bufs[i].refcnt != 0)
    && Uncached(s.bufs, g.start + s.phase.tail + 1)
  }

  ghost function Ended(s: State): (r: State) {
    s.(threads := seq(3, _ => FRESH_THREAD), outstanding := 0, trace := s.trace + [End(0)] + [End(1)] + [End(2)],
       committing := true, phase := LogBlocks(0), committer := 2)
  }

  lemma {:induction false} EndThree(g: Geometry, s: State)
    requires s.threads == seq(3, _ => FRESH_THREAD.(inOp := true)) && s.outstanding == 3 && !s.committing
    ensures Run(g, s, [EndOp(0), EndOp(1), EndOp(2)], Ended(s))
  {
    var s1 := AfterEndOp(s, 0);
    var s2 := AfterEndOp(s1, 1);
    var s3 := AfterEndOp(s2, 2);
    assert Enabled(g, s, EndOp(0)) && Enabled(g, s1, EndOp(1)) && Enabled(g, s2, EndOp(2));
    assert s3.threads == Ended(s).threads;
    RunThree(g, s, EndOp(0), s1, EndOp(1), s2, EndOp(2), s3);
  }

  lemma {:induction false} EndedStarved(g: Geometry, s: State)
    requires Idling(g, s) && First(g) + NBUF <= g.blocks && g.size > LOGSIZE
    ensures Starved(g, Ended(Filled(g, s, NBUF)))
  {
    FilledIs(g, s, NBUF);
    var f, r, b := Filled(g, s, NBUF), Ended(Filled(g, s, NBUF)), g.start + 1;
    forall i: nat | i < |r.bufs| ensures Uses(r.threads, i) == 0 && r.bufs[i].refcnt != 0 {
      NoUses(r.threads, i);
      assert BufIs(g, s, f, NBUF, i);
    }
    forall j: nat ensures !Caches(r.bufs, j, b) {
      assert BufIs(g, s, f, NBUF, j);
    }
  }

  /** The distinct blocks that the latest operation of thread t has logged. */
  ghost function Written(trace: seq<Event>, t: nat): (r: set<nat>) {
    if trace == [] then {}
    else
      var n := |trace| - 1;
      match trace[n]
      case Begin(u) => if u == t then {} else Written(trace[..n], t)
      case Write(u, b, _) => Written(trace[..n], t) + if u == t then {b} else {}
      case End(_) => Written(trace[..n], t)
  }

  lemma {:induction false} WrittenNext(trace: seq<Event>, e: Event, t: nat)
    ensures Written(trace + [e], t) ==
      match e
      case Begin(u) => if u == t then {} else Written(trace, t)
      case Write(u, b, _) => Written(trace, t) + if u == t then {b} else {}
      case End(_) => Written(trace, t)
  {
    assert (trace + [e])[..|trace|] == trace;
  }

  /** Every operation in the history keeps to its budget of MAXOPBLOCKS distinct blocks. */
  ghost predicate InBudget(trace: seq<Event>) {
    trace != [] ==>
      var n := |trace| - 1;
      InBudget(trace[..n]) && (trace[n].Write? ==> |Written(trace, trace[n].t)| <= MAXOPBLOCKS)
  }

  lemma {:induction false} InBudgetNext(trace: seq<Event>, e: Event)
    ensures InBudget(trace + [e]) <==>
      InBudget(trace) && (e.Write? ==> |Written(trace + [e], e.t)| <= MAXOPBLOCKS)
  {
    assert (trace + [e])[..|trace|] == trace;
  }

  lemma {:induction false} NoneWritten(t: nat)
    ensures Written([Begin(0), Begin(1), Begin(2)], t) == {}
  {
    WrittenNext([], Begin(0), t);
    WrittenNext([Begin(0)], Begin(1), t);
    WrittenNext([Begin(0), Begin(1)], Begin(2), t);
    assert [] + [Begin(0)] == [Begin(0)] && [Begin(0)] + [Begin(1)] == [Begin(0), Begin(1)];
    assert [Begin(0), Begin(1)] + [Begin(2)] == [Begin(0), Begin(1), Begin(2)];
  }

  lemma {:induction false} BegunInBudget()
    ensures InBudget([Begin(0), Begin(1), Begin(2)])
  {
    InBudgetNext([], Begin(0));
    InBudgetNext([Begin(0)], Begin(1));
    InBudgetNext([Begin(0), Begin(1)], Begin(2));
    assert [] + [Begin(0)] == [Begin(0)] && [Begin(0)] + [Begin(1)] == [Begin(0), Begin(1)];
    assert [Begin(0), Begin(1)] + [Begin(2)] == [Begin(0), Begin(1), Begin(2)];
  }

  /** What thread t may have logged after n blocks. */
  predicate ShareFits(w: set<nat>, n: nat, t: nat) {
    && (n <= t * MAXOPBLOCKS ==> w == {}) && |w| <= MAXOPBLOCKS
    && (t * MAXOPBLOCKS <= n ==> |w| <= n - t * MAXOPBLOCKS)
  }

  lemma {:induction false} ShareNext(w: set<nat>, b: nat, n: nat, t: nat)
    requires ShareFits(w, n, t)
    ensures ShareFits(w + if n / MAXOPBLOCKS == t then {b} else {}, n + 1, t)
  {
    assert |w + {b}| <= |w| + 1;
    assert w + {} == w;
  }

  lemma {:induction false} ShareOf(g: Geometry, s: State, n: nat, t: nat)
    requires Idling(g, s) && n <= NBUF && First(g) + NBUF <= g.blocks && Written(s.trace, t) == {}
    ensures ShareFits(Written(Filled(g, s, n).trace, t), n, t)
  {
    if n > 0 {
      ShareOf(g, s, n - 1, t);
      var r, b, u := Filled(g, s, n - 1), First(g) + n - 1, (n - 1) / MAXOPBLOCKS;
      ShareNext(Written(r.trace, t), b, n - 1, t);
      hide Written, Idling, ShareFits;
      WrittenNext(r.trace, Write(u, b, r.disk[b]), t);
    }
  }

  lemma {:induction false} FilledInBudget(g: Geometry, s: State, n: nat)
    requires Idling(g, s) && n <= NBUF && First(g) + NBUF <= g.blocks && InBudget(s.trace)
    requires forall t: nat :: Written(s.trace, t) == {}
    ensures InBudget(Filled(g, s, n).trace)
  {
    if n > 0 {
      FilledInBudget(g, s, n - 1);
      var r, b, u := Filled(g, s, n - 1), First(g) + n - 1, (n - 1) / MAXOPBLOCKS;
      ShareOf(g, s, n, u);
      InBudgetNext(r.trace, Write(u, b, r.disk[b]));
    }
  }

  lemma {:induction false} EndedInBudget(g: Geometry, s: State)
    requires InBudget(s.trace)
    ensures InBudget(Ended(s).trace)
  {
    var f := s.trace;
    InBudgetNext(f, End(0));
    InBudgetNext(f + [End(0)], End(1));
    InBudgetNext(f + [End(0)] + [End(1)], End(2));
  }

  /** With at most LOGSIZE blocks in the log, no run lists as many blocks as there are
      buffers. */
  lemma {:induction false} ShortLogSpares(g: Geometry, boot: Disk, s0: State, acts: seq<Action>, s: State)
    requires Init(g, boot, s0) && Run(g, s0, acts, s) && g.size <= LOGSIZE
    ensures |s.lh| < NBUF
  {
    InitInv(g, boot, s0);
    RunKeepsInv(g, boot, s0, acts, s);
  }

  ghost predicate StarvedBy(g: Geometry, disk: Disk, acts: seq<Action>, s: State) {
    Run(g, PowerOn(disk), acts, s) && InBudget(s.trace) && Starved(g, s)
  }

  ghost predicate CanStarve(g: Geometry, disk: Disk) {
    exists acts: seq<Action>, s: State :: StarvedBy(g, disk, acts, s)
  }

  lemma {:induction false} StartedIdles(g: Geometry, disk: Disk)
    requires Clean(g, disk)
    ensures Idling(g, Started(g, disk)) && InBudget(Started(g, disk).trace)
    ensures forall t: nat :: Written(Started(g, disk).trace, t) == {}
  {
    forall t: nat ensures Written(Started(g, disk).trace, t) == {} {
      NoneWritten(t);
    }
    BegunInBudget();
  }

  function AllSteps(g: Geometry, n: nat): (acts: seq<Action>) {
    BootSteps(g.start) + BEGIN_STEPS + FillSteps(g, n)
  }

  /** Power-on, recovery, three operations that log n blocks between them. */
  lemma {:induction false} FillRun(g: Geometry, disk: Disk, n: nat)
    requires Clean(g, disk) && First(g) + NBUF <= g.blocks && n <= NBUF && n < g.size
    ensures Idling(g, Started(g, disk)) && Run(g, PowerOn(disk), AllSteps(g, n), Filled(g, Started(g, disk), n))
  {
    var s := Started(g, disk);
    Boot(g, disk);
    BeginThree(g, disk);
    StartedIdles(g, disk);
    Fill(g, s, n);
    hide Run, Recovering, Started, Filled, PowerOn, Idling;
    RunCat(g, PowerOn(disk), BootSteps(g.start), Recovering(g, disk), BEGIN_STEPS, s);
    RunCat(g, PowerOn(disk), BootSteps(g.start) + BEGIN_STEPS, s, FillSteps(g, n), Filled(g, s, n));
  }

  lemma {:induction false} StarvingRun(g: Geometry, disk: Disk)
    requires Clean(g, disk) && First(g) + NBUF <= g.blocks && g.size > LOGSIZE
    ensures CanStarve(g, disk)
  {
    var s := Started(g, disk);
    FillRun(g, disk, NBUF);
    StartedIdles(g, disk);
    FilledIs(g, s, NBUF);
    EndThree(g, Filled(g, s, NBUF));
    EndedStarved(g, s);
    FilledInBudget(g, s, NBUF);
    EndedInBudget(g, Filled(g, s, NBUF));
    hide InBudget, Run, Started, Filled, Ended, PowerOn, Starved, Idling;
    var f, ends := Filled(g, s, NBUF), [EndOp(0), EndOp(1), EndOp(2)];
    RunCat(g, PowerOn(disk), AllSteps(g, NBUF), f, ends, Ended(f));
    assert StarvedBy(g, disk, AllSteps(g, NBUF) + ends, Ended(f));
  }

  /** write_log can be left without a buffer exactly if the log has more than LOGSIZE
      blocks; the shipped image has LOGSIZE. */
  lemma {:induction false} StarvedExact(g: Geometry, disk: Disk)
    requires Clean(g, disk) && First(g) + NBUF <= g.blocks
    ensures CanStarve(g, disk) <==> g.size > LOGSIZE
  {
    if g.size > LOGSIZE {
      StarvingRun(g, disk);
    } else {
      PowerOnInit(g, disk);
      forall acts: seq<Action>, s: State ensures !StarvedBy(g, disk, acts, s) {
        if StarvedBy(g, disk, acts, s) {
          SpareBufferExact(g, disk, PowerOn(disk), acts, s);
          ShortLogSpares(g, disk, PowerOn(disk), acts, s);
        }
      }
    }
  }
}
