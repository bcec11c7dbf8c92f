/** kernel/log.c and kernel/bio.c as a step machine: any number of threads use
    the buffer cache and run file-system operations, the last one to finish
    commits, and the machine may crash between any two steps. Only the disk
    survives a crash. */
module LogMachine {
  import opened Bytes
  import opened LogFormat
  import Log

  const ROOTDEV: nat := 1
  const NBUF: nat := MAXOPBLOCKS * 3

  /** A cache buffer. `owner` is the holder of its sleep lock; `dirty` says that
      the holder has changed the data and not yet logged the change. */
  datatype Buf = Buf(dev: nat, blockno: nat, valid: bool, refcnt: int, data: Block, owner: Option<nat>, dirty: bool)

  /** A thread of the kernel: inside begin_op/end_op or not, and where it stands
      with each buffer: waiting in bget, holding it, or in brelse between the
      unlock and the decrement. */
  datatype Thread = Thread(inOp: bool, waiting: Option<nat>, held: set<nat>, releasing: Option<nat>)

  /** Where the commit (or boot-time recovery) stands. */
  datatype Phase =
    | Running
    | LogBlocks(tail: nat)
    | Installing(tail: nat)
    | Unpinning(tail: nat)
    | Erasing
    | Finishing
    | Booting
    | Replaying(tail: nat)
    | BootErasing

  datatype Event = Begin(t: nat) | Write(t: nat, b: nat, data: Block) | End(t: nat)

  /** `trace` is the history of operations that survived so far, and its first
      `durable` events are the ones a crash keeps. */
  datatype State = State(
    disk: Disk,
    bufs: seq<Buf>,
    threads: seq<Thread>,
    lh: seq<U32>,
    outstanding: int,
    committing: bool,
    phase: Phase,
    committer: nat,
    trace: seq<Event>,
    durable: nat)

  datatype Action =
    | BgetHit(t: nat, i: nat, b: nat)
    | BgetMiss(t: nat, i: nat, b: nat)
    | Acquire(t: nat, i: nat)
    | ReadBlock(t: nat, i: nat)
    | Unlock(t: nat, i: nat)
    | Unref(t: nat, i: nat)
    | BeginOp(t: nat)
    | Modify(t: nat, i: nat, data: Block)
    | LogWrite(t: nat, i: nat)
    | EndOp(t: nat)
    | CopyToLog(i: nat, j: nat)
    | CommitHead(i: nat)
    | SkipCommit
    | InstallBlock(i: nat, j: nat)
    | UnpinBlock(j: nat)
    | StartErase
    | EraseHead(i: nat)
    | FinishCommit
    | Crash(t: nat)
    | LoadHead(i: nat)

  // ----- the history of operations -----

  /** The operations begun and not ended in a trace. */
  ghost function Open(trace: seq<Event>): set<nat> {
    if trace == [] then {} else
      var before := Open(trace[..|trace| - 1]);
      match trace[|trace| - 1]
      case Begin(t) => before + {t}
      case Write(_, _, _) => before
      case End(t) => before - {t}
  }

  /** Begins, writes and ends are properly bracketed, and only home blocks are written. */
  ghost predicate Bracketed(g: Geometry, trace: seq<Event>) {
    trace != [] ==>
      var init := trace[..|trace| - 1];
      && Bracketed(g, init)
      && match trace[|trace| - 1]
         case Begin(t) => t !in Open(init)
         case Write(t, b, _) => t in Open(init) && Home(g, b)
         case End(t) => t in Open(init)
  }

  /** The disk contents after the writes of a trace, in order. */
  ghost function Replay(boot: Disk, trace: seq<Event>): (r: Disk)
    ensures |r| == |boot|
  {
    if trace == [] then boot else
      var before := Replay(boot, trace[..|trace| - 1]);
      match trace[|trace| - 1]
      case Write(_, b, data) => if b < |boot| then before[b := data] else before
      case Begin(_) => before
      case End(_) => before
  }

  // ----- steps -----

  predicate Caches(bufs: seq<Buf>, i: nat, b: nat) {
    i < |bufs| && bufs[i].dev == ROOTDEV && bufs[i].blockno == b
  }

  /** Thread t holds buffer i, which has the valid contents of block b. */
  predicate HoldsBlock(s: State, t: nat, i: nat, b: nat) {
    t < |s.threads| && i in s.threads[t].held && Caches(s.bufs, i, b) && s.bufs[i].valid
  }

  predicate Ready(s: State, t: nat) {
    t < |s.threads| && s.threads[t].waiting.None? && s.threads[t].releasing.None?
  }

  ghost predicate Enabled(g: Geometry, s: State, a: Action) {
    match a
    case BgetHit(t, i, b) => Ready(s, t) && b < g.blocks && Caches(s.bufs, i, b)
    case BgetMiss(t, i, b) =>
      && Ready(s, t) && b < g.blocks
      && i < |s.bufs| && s.bufs[i].refcnt == 0
      && forall j: nat :: !Caches(s.bufs, j, b)
    case Acquire(t, i) =>
      t < |s.threads| && s.threads[t].waiting == Some(i) && i < |s.bufs| && s.bufs[i].owner.None?
    case ReadBlock(t, i) =>
      && t < |s.threads| && i in s.threads[t].held
      && i < |s.bufs| && !s.bufs[i].valid && s.bufs[i].blockno < |s.disk|
    case Unlock(t, i) =>
      Ready(s, t) && i in s.threads[t].held && i < |s.bufs| && !s.bufs[i].dirty
    case Unref(t, i) => t < |s.threads| && s.threads[t].releasing == Some(i) && i < |s.bufs|
    case BeginOp(t) =>
      && t < |s.threads| && !s.threads[t].inOp
      && s.phase.Running? && !s.committing && Log.Admits(|s.lh|, s.outstanding)
    case Modify(t, i, _) =>
      && i < |s.bufs| && HoldsBlock(s, t, i, s.bufs[i].blockno)
      && s.threads[t].inOp && Home(g, s.bufs[i].blockno)
    case LogWrite(t, i) =>
      && i < |s.bufs| && HoldsBlock(s, t, i, s.bufs[i].blockno)
      && s.threads[t].inOp && Home(g, s.bufs[i].blockno)
      && |s.lh| < LOGSIZE && |s.lh| < g.size - 1 && s.outstanding >= 1
    case EndOp(t) =>
      && t < |s.threads| && s.threads[t].inOp && !s.committing
      && forall i :: i in s.threads[t].held && i < |s.bufs| ==> !s.bufs[i].dirty
    case CopyToLog(i, j) =>
      && s.phase.LogBlocks? && s.phase.tail < |s.lh|
      && HoldsBlock(s, s.committer, i, g.start + s.phase.tail + 1)
      && HoldsBlock(s, s.committer, j, s.lh[s.phase.tail])
      && g.start + s.phase.tail + 1 < |s.disk|
    case CommitHead(i) =>
      && s.phase.LogBlocks? && s.phase.tail == |s.lh| && 0 < |s.lh| <= LOGSIZE
      && HoldsBlock(s, s.committer, i, g.start) && g.start < |s.disk|
    case SkipCommit => s.phase.LogBlocks? && s.lh == []
    case InstallBlock(i, j) =>
      && (s.phase.Installing? || s.phase.Replaying?) && s.phase.tail < |s.lh|
      && HoldsBlock(s, s.committer, i, g.start + s.phase.tail + 1)
      && HoldsBlock(s, s.committer, j, s.lh[s.phase.tail])
      && s.lh[s.phase.tail] < |s.disk|
    case UnpinBlock(j) =>
      && s.phase.Unpinning? && s.phase.tail < |s.lh|
      && HoldsBlock(s, s.committer, j, s.lh[s.phase.tail])
    case StartErase =>
      (s.phase.Installing? || s.phase.Replaying?) && s.phase.tail == |s.lh|
    case EraseHead(i) =>
      && (s.phase.Erasing? || s.phase.BootErasing?) && |s.lh| <= LOGSIZE
      && HoldsBlock(s, s.committer, i, g.start) && g.start < |s.disk|
    case FinishCommit => s.phase.Finishing?
    case Crash(t) => t < |s.threads| && s.durable <= |s.trace|
    case LoadHead(i) =>
      && s.phase.Booting?
      && HoldsBlock(s, s.committer, i, g.start) && HeadCount(s.bufs[i].data) <= LOGSIZE
  }

  const FRESH_BUF: Buf := Buf(0, 0, false, 0, ZERO_BLOCK, None, false)
  const FRESH_THREAD: Thread := Thread(false, None, {}, None)

  /** bget, block cached: take a reference, then wait for the lock. */
  function AfterHit(s: State, t: nat, i: nat): (r: State)
    requires t < |s.threads| && i < |s.bufs|
  {
    s.(bufs := s.bufs[i := s.bufs[i].(refcnt := s.bufs[i].refcnt + 1)],
       threads := s.threads[t := s.threads[t].(waiting := Some(i))])
  }

  /** bget, block not cached: recycle an unreferenced buffer. */
  function AfterMiss(s: State, t: nat, i: nat, b: nat): (r: State)
    requires t < |s.threads| && i < |s.bufs|
  {
    s.(bufs := s.bufs[i := s.bufs[i].(dev := ROOTDEV, blockno := b, valid := false, refcnt := 1)],
       threads := s.threads[t := s.threads[t].(waiting := Some(i))])
  }

  /** acquiresleep at the end of bget. */
  function AfterAcquire(s: State, t: nat, i: nat): (r: State)
    requires t < |s.threads| && i < |s.bufs|
  {
    s.(bufs := s.bufs[i := s.bufs[i].(owner := Some(t))],
       threads := s.threads[t := s.threads[t].(waiting := None, held := s.threads[t].held + {i})])
  }

  /** bread of a buffer that is not valid. */
  function AfterRead(s: State, i: nat): (r: State)
    requires i < |s.bufs| && s.bufs[i].blockno < |s.disk|
  {
    s.(bufs := s.bufs[i := s.bufs[i].(data := s.disk[s.bufs[i].blockno], valid := true)])
  }

  /** brelse, first half: releasesleep. */
  function AfterUnlock(s: State, t: nat, i: nat): (r: State)
    requires t < |s.threads| && i < |s.bufs|
  {
    s.(bufs := s.bufs[i := s.bufs[i].(owner := None)],
       threads := s.threads[t := s.threads[t].(held := s.threads[t].held - {i}, releasing := Some(i))])
  }

  /** brelse, second half: drop the reference. */
  function AfterUnref(s: State, t: nat, i: nat): (r: State)
    requires t < |s.threads| && i < |s.bufs|
  {
    s.(bufs := s.bufs[i := s.bufs[i].(refcnt := s.bufs[i].refcnt - 1)],
       threads := s.threads[t := s.threads[t].(releasing := None)])
  }

  function AfterModify(s: State, i: nat, data: Block): (r: State)
    requires i < |s.bufs|
  {
    s.(bufs := s.bufs[i := s.bufs[i].(data := data, dirty := true)])
  }

  function AfterBeginOp(s: State, t: nat): (r: State)
    requires t < |s.threads|
  {
    s.(threads := s.threads[t := s.threads[t].(inOp := true)],
       outstanding := s.outstanding + 1,
       trace := s.trace + [Begin(t)])
  }

  /** log_write: absorb or append, and pin a block that is new to the log. */
  function AfterLogWrite(s: State, t: nat, i: nat): (r: State)
    requires i < |s.bufs| && s.bufs[i].blockno < TWO_32
  {
    var buf := s.bufs[i];
    s.(bufs := s.bufs[i := buf.(dirty := false, refcnt := buf.refcnt + if buf.blockno in s.lh then 0 else 1)],
       lh := Log.Absorb(s.lh, buf.blockno),
       trace := s.trace + [Write(t, buf.blockno, buf.data)])
  }

  /** end_op: the last operation out starts the commit. */
  function AfterEndOp(s: State, t: nat): (r: State)
    requires t < |s.threads|
  {
    var last := s.outstanding == 1;
    s.(threads := s.threads[t := s.threads[t].(inOp := false)],
       outstanding := s.outstanding - 1,
       trace := s.trace + [End(t)],
       committing := s.committing || last,
       phase := if last then LogBlocks(0) else s.phase,
       committer := if last then t else s.committer)
  }

  /** One iteration of write_log: memmove into the log block's buffer i, then bwrite. */
  function AfterCopyToLog(s: State, i: nat, j: nat): (r: State)
    requires i < |s.bufs| && j < |s.bufs| && s.bufs[i].blockno < |s.disk| && s.phase.LogBlocks?
  {
    s.(bufs := s.bufs[i := s.bufs[i].(data := s.bufs[j].data)],
       disk := s.disk[s.bufs[i].blockno := s.bufs[j].data],
       phase := LogBlocks(s.phase.tail + 1))
  }

  /** write_head with the transaction: the commit point. */
  function AfterCommitHead(s: State, i: nat): (r: State)
    requires i < |s.bufs| && s.bufs[i].blockno < |s.disk| && |s.lh| <= LOGSIZE
  {
    s.(bufs := s.bufs[i := s.bufs[i].(data := PutHead(s.bufs[i].data, s.lh))],
       disk := s.disk[s.bufs[i].blockno := PutHead(s.bufs[i].data, s.lh)],
       phase := Installing(0),
       durable := |s.trace|)
  }

  /** One iteration of install_trans, up to bwrite; a commit has yet to unpin the block. */
  function AfterInstall(s: State, i: nat, j: nat): (r: State)
    requires i < |s.bufs| && j < |s.bufs| && s.bufs[j].blockno < |s.disk| && (s.phase.Installing? || s.phase.Replaying?)
  {
    s.(bufs := s.bufs[j := s.bufs[j].(data := s.bufs[i].data)],
       disk := s.disk[s.bufs[j].blockno := s.bufs[i].data],
       phase := if s.phase.Installing? then Unpinning(s.phase.tail) else Replaying(s.phase.tail + 1))
  }

  function AfterUnpin(s: State, j: nat): (r: State)
    requires j < |s.bufs| && s.phase.Unpinning?
  {
    s.(bufs := s.bufs[j := s.bufs[j].(refcnt := s.bufs[j].refcnt - 1)],
       phase := Installing(s.phase.tail + 1))
  }

  /** log.lh.n = 0 after install_trans. */
  function AfterStartErase(s: State): (r: State) {
    s.(lh := [], phase := if s.phase.Installing? then Erasing else BootErasing)
  }

  /** write_head with an empty header. */
  function AfterErase(s: State, i: nat): (r: State)
    requires i < |s.bufs| && s.bufs[i].blockno < |s.disk| && |s.lh| <= LOGSIZE
  {
    s.(bufs := s.bufs[i := s.bufs[i].(data := PutHead(s.bufs[i].data, s.lh))],
       disk := s.disk[s.bufs[i].blockno := PutHead(s.bufs[i].data, s.lh)],
       phase := if s.phase.Erasing? then Finishing else Running)
  }

  /** Only the disk, and what it makes durable, survives. */
  function AfterCrash(s: State, t: nat): (r: State)
    requires s.durable <= |s.trace|
  {
    State(s.disk, seq(|s.bufs|, _ => FRESH_BUF), seq(|s.threads|, _ => FRESH_THREAD),
          [], 0, false, Booting, t, s.trace[..s.durable], s.durable)
  }

  ghost function Do(g: Geometry, s: State, a: Action): (r: State)
    requires Enabled(g, s, a)
  {
    match a
    case BgetHit(t, i, b) => AfterHit(s, t, i)
    case BgetMiss(t, i, b) => AfterMiss(s, t, i, b)
    case Acquire(t, i) => AfterAcquire(s, t, i)
    case ReadBlock(t, i) => AfterRead(s, i)
    case Unlock(t, i) => AfterUnlock(s, t, i)
    case Unref(t, i) => AfterUnref(s, t, i)
    case BeginOp(t) => AfterBeginOp(s, t)
    case Modify(t, i, data) => AfterModify(s, i, data)
    case LogWrite(t, i) => AfterLogWrite(s, t, i)
    case EndOp(t) => AfterEndOp(s, t)
    case CopyToLog(i, j) => AfterCopyToLog(s, i, j)
    case CommitHead(i) => AfterCommitHead(s, i)
    case SkipCommit => s.(phase := Finishing, durable := |s.trace|)
    case InstallBlock(i, j) => AfterInstall(s, i, j)
    case UnpinBlock(j) => AfterUnpin(s, j)
    case StartErase => AfterStartErase(s)
    case EraseHead(i) => AfterErase(s, i)
    case FinishCommit => s.(committing := false, phase := Running)
    case Crash(t) => AfterCrash(s, t)
    case LoadHead(i) => s.(lh := GetHead(s.bufs[i].data), phase := Replaying(0))
  }

  /** Power-on with a disk that recovers to the contents `boot`. */
  ghost predicate Init(g: Geometry, boot: Disk, s: State) {
    && RecoversTo(g, s.disk, boot)
    && s.bufs == seq(NBUF, _ => FRESH_BUF)
    && s.threads == seq(|s.threads|, _ => FRESH_THREAD) && s.committer < |s.threads|
    && s.lh == [] && s.outstanding == 0 && !s.committing && s.phase == Booting
    && s.trace == [] && s.durable == 0
  }

  /** s' is reached from s by the given steps. */
  ghost predicate Run(g: Geometry, s: State, acts: seq<Action>, s': State)
    decreases |acts|
  {
    if acts == [] then s == s'
    else Enabled(g, s, acts[0]) && Run(g, Do(g, s, acts[0]), acts[1..], s')
  }
}
