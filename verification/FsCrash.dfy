/** The file system across crashes: operations of Fs, each run as one operation of the
    log, on the machine of LogMachine. Whatever instant power is lost, recovery yields
    a file system whose free map, inodes and files agree. */
module FsCrash {
  import opened Bytes
  import Bitmap
  import opened FsFormat
  import opened FsSteps
  import opened FsDisk
  import opened LogFormat
  import opened LogMachine
  import LogInvariant
  import opened LogTheorems
  import Names
  import FileWrite
  import Sysfile
  import Fs

  // ----- the file system a disk holds -----

  /** The inodes 1 .. n-1 as they are on disk. */
  function InodesOf(sb: Super, d: Disk, n: nat): (ino: Inodes) {
    map i: nat | 1 <= i < n && InodeBlock(sb, i) < |d| :: GetInode(d[InodeBlock(sb, i)], i % IPB)
  }

  /** Some assignment of blocks to slots agrees with the free map, the inodes and the
      indirect blocks on this disk, and no block is marked without being in a slot. */
  ghost predicate Consistent(sb: Super, n: nat, d: Disk) {
    exists owner: Owners :: FsOk(sb, d, InodesOf(sb, d, n), owner) && NoTaken(owner)
  }

  /** What consistency means for each data block: it is marked exactly if a slot of an
      inode on this disk names it, and then a single one does. */
  lemma {:induction false} FreeMapAgrees(sb: Super, n: nat, d: Disk, b: nat)
    requires Consistent(sb, n, d) && sb.data <= b < sb.size
    ensures Used(sb, d, b) <==> exists i: nat, u: nat :: FsFormat.Names(d, InodesOf(sb, d, n), b, i, u)
    ensures forall i: nat, u: nat, j: nat, v: nat ::
      FsFormat.Names(d, InodesOf(sb, d, n), b, i, u) && FsFormat.Names(d, InodesOf(sb, d, n), b, j, v) ==>
        i == j && u == v
  {
    var owner: Owners :| FsOk(sb, d, InodesOf(sb, d, n), owner) && NoTaken(owner);
    UsedIsNamed(sb, d, InodesOf(sb, d, n), owner, b);
  }

  /** mkfs puts the log before the inodes and these before the free map. */
  predicate Layout(g: Geometry, sb: Super) {
    g.blocks == sb.size && g.start + g.size <= sb.inodestart <= sb.bmapstart
  }

  /** The log area is no part of the file system. */
  lemma {:induction false} ConsistentHome(g: Geometry, sb: Super, n: nat, d: Disk, e: Disk)
    requires Layout(g, sb) && Consistent(sb, n, d) && SameHome(g, d, e)
    ensures Consistent(sb, n, e) && InodesOf(sb, e, n) == InodesOf(sb, d, n)
  {
    var ino := InodesOf(sb, d, n);
    assert forall b :: sb.inodestart <= b < g.blocks ==> Home(g, b);
    assert InodesOf(sb, e, n) == ino;
    var owner: Owners :| FsOk(sb, d, ino, owner) && NoTaken(owner);
    forall b: nat ensures OwnedSame(owner, d, e, b) {
      assert BitAt(sb, d, owner, b);
    }
    forall b: nat ensures BitAt(sb, e, owner, b) {
      assert BitAt(sb, d, owner, b);
      if b < sb.size { BitmapBelow(sb, d, b); }
    }
    LooseBlocks(sb, d, ino, owner, e, owner);
  }

  // ----- histories of file-system operations -----

  /** One operation: who runs it and what it gives to log_write. */
  datatype Op = Op(t: nat, puts: seq<Put>)

  function Writes(t: nat, puts: seq<Put>): (r: seq<Event>)
    ensures |r| == |puts|
  {
    seq(|puts|, k requires 0 <= k < |puts| => Write(t, puts[k].b, puts[k].data))
  }

  function Events(op: Op): (r: seq<Event>)
    ensures |r| == |op.puts| + 2
  {
    [Begin(op.t)] + Writes(op.t, op.puts) + [End(op.t)]
  }

  /** The events of operations that run one after the other. */
  function Flat(ops: seq<Op>): (r: seq<Event>) {
    if ops == [] then [] else Flat(ops[..|ops| - 1]) + Events(ops[|ops| - 1])
  }

  function After(boot: Disk, ops: seq<Op>): (d: Disk)
    ensures |d| == |boot|
  {
    if ops == [] then boot else Applied(After(boot, ops[..|ops| - 1]), ops[|ops| - 1].puts)
  }

  /** Every operation leads from a consistent file system to a consistent one. */
  ghost predicate History(sb: Super, n: nat, boot: Disk, ops: seq<Op>) {
    Consistent(sb, n, After(boot, ops)) && (ops != [] ==> History(sb, n, boot, ops[..|ops| - 1]))
  }

  lemma {:induction false} HistoryAt(sb: Super, n: nat, boot: Disk, ops: seq<Op>, j: nat)
    requires History(sb, n, boot, ops) && j <= |ops|
    ensures Consistent(sb, n, After(boot, ops[..j]))
  {
    if j < |ops| {
      HistoryAt(sb, n, boot, ops[..|ops| - 1], j);
      assert ops[..|ops| - 1][..j] == ops[..j];
    } else {
      assert ops[..j] == ops;
    }
  }

  // ----- replaying them -----

  lemma {:induction false} ReplayWrites(d: Disk, t: nat, puts: seq<Put>)
    ensures Replay(d, Writes(t, puts)) == Applied(d, puts)
  {
    if puts != [] {
      var n := |puts| - 1;
      ReplayWrites(d, t, puts[..n]);
      assert Writes(t, puts)[..n] == Writes(t, puts[..n]);
    }
  }

  lemma {:induction false} ReplayEvents(d: Disk, op: Op)
    ensures Replay(d, Events(op)) == Applied(d, op.puts)
  {
    var w := Writes(op.t, op.puts);
    ReplayWrites(d, op.t, op.puts);
    ReplayAfter(d, [Begin(op.t)], w);
    ReplayAfter(d, [Begin(op.t)] + w, [End(op.t)]);
    assert [Begin(op.t)][..0] == [] && [End(op.t)][..0] == [];
    assert Replay(d, [Begin(op.t)]) == d;
    assert Replay(Applied(d, op.puts), [End(op.t)]) == Applied(d, op.puts);
  }

  lemma {:induction false} ReplayFlat(boot: Disk, ops: seq<Op>)
    ensures Replay(boot, Flat(ops)) == After(boot, ops)
  {
    if ops != [] {
      var init, op := ops[..|ops| - 1], ops[|ops| - 1];
      ReplayFlat(boot, init);
      ReplayAfter(boot, Flat(init), Events(op));
      ReplayEvents(After(boot, init), op);
    }
  }

  // ----- where no operation is open -----

  /** Inside an operation it is open, after its last event it is not. */
  lemma {:induction false} OpenInside(a: seq<Event>, op: Op, k: nat)
    requires Open(a) == {} && 0 < k <= |Events(op)|
    ensures Open(a + Events(op)[..k]) == if k < |Events(op)| then {op.t} else {}
  {
    var e := Events(op);
    var prev := a + e[..k - 1];
    assert (a + e[..k])[..|a| + k - 1] == prev && (a + e[..k])[|a| + k - 1] == e[k - 1];
    if k == 1 {
      assert prev == a;
    } else {
      OpenInside(a, op, k - 1);
      assert k < |e| ==> e[k - 1].Write?;
    }
  }

  lemma {:induction false} OpenFlat(ops: seq<Op>)
    ensures Open(Flat(ops)) == {}
  {
    if ops != [] {
      var init, op := ops[..|ops| - 1], ops[|ops| - 1];
      OpenFlat(init);
      OpenInside(Flat(init), op, |Events(op)|);
      assert Events(op)[..|Events(op)|] == Events(op);
    }
  }

  /** A point of the history where no operation is open lies between two operations. */
  lemma {:induction false} Between(ops: seq<Op>, k: nat) returns (j: nat)
    requires k <= |Flat(ops)| && Open(Flat(ops)[..k]) == {}
    ensures j <= |ops| && Flat(ops)[..k] == Flat(ops[..j])
  {
    if ops == [] {
      return 0;
    }
    var init, op := ops[..|ops| - 1], ops[|ops| - 1];
    var m := |Flat(init)|;
    if k <= m {
      assert Flat(ops)[..k] == Flat(init)[..k];
      j := Between(init, k);
      assert init[..j] == ops[..j];
    } else {
      assert Flat(ops)[..k] == Flat(init) + Events(op)[..k - m];
      OpenFlat(init);
      OpenInside(Flat(init), op, k - m);
      j := |ops|;
      assert ops[..j] == ops && Flat(ops)[..k] == Flat(ops);
    }
  }

  lemma {:induction false} FlatLonger(ops: seq<Op>, j: nat)
    requires j < |ops|
    ensures |Flat(ops[..j])| < |Flat(ops)|
  {
    var init := ops[..|ops| - 1];
    if j < |init| {
      FlatLonger(init, j);
      assert init[..j] == ops[..j];
    }
  }

  // ----- main results -----

  /** Recovery now yields the file system after the first j operations. */
  ghost predicate RecoversOps(g: Geometry, s: State, boot: Disk, ops: seq<Op>, j: nat) {
    && j <= |ops| && s.durable <= |s.trace| && s.trace[..s.durable] == Flat(ops[..j])
    && GoodLog(g, s.disk) && SameHome(g, Recovered(g, s.disk), After(boot, ops[..j]))
  }

  lemma {:induction false} RecoveredOps(g: Geometry, boot: Disk, s: State, ops: seq<Op>) returns (j: nat)
    requires LogInvariant.Inv(g, boot, s) && s.trace <= Flat(ops)
    ensures RecoversOps(g, s, boot, ops, j)
  {
    hide LogInvariant.Inv, Recovered, GoodLog, Bracketed;
    InvRecovers(g, boot, s);
    assert s.trace[..s.durable] == Flat(ops)[..s.durable];
    j := Between(ops, s.durable);
    ReplayFlat(boot, ops[..j]);
  }

  /** In every run in which the operations of a history are carried out, crash or not,
      recovery yields the file system after a number of whole operations, and that is
      consistent as it lies on the disk. */
  lemma {:induction false} CrashConsistent(g: Geometry, sb: Super, n: nat, boot: Disk, s0: State, acts: seq<Action>,
      s: State, ops: seq<Op>)
    requires Layout(g, sb) && History(sb, n, boot, ops)
    requires Init(g, boot, s0) && Run(g, s0, acts, s) && s.trace <= Flat(ops)
    ensures exists j :: RecoversOps(g, s, boot, ops, j)
    ensures GoodLog(g, s.disk) && Consistent(sb, n, Recovered(g, s.disk))
  {
    hide LogInvariant.Inv, Recovered, GoodLog, Run, Init, Consistent, Flat;
    InitInv(g, boot, s0);
    RunKeepsInv(g, boot, s0, acts, s);
    var j := RecoveredOps(g, boot, s, ops);
    HistoryAt(sb, n, boot, ops, j);
    ConsistentHome(g, sb, n, After(boot, ops[..j]), Recovered(g, s.disk));
  }

  /** Once the operations before it are on disk, an operation is atomic: whatever
      happens while it runs or commits, recovery yields the file system without it or
      the one with it. */
  lemma {:induction false} OldOrNew(g: Geometry, boot: Disk, s0: State, before: seq<Action>, s: State,
      acts: seq<Action>, s': State, ops: seq<Op>, op: Op)
    requires Init(g, boot, s0) && Run(g, s0, before, s) && s.trace == Flat(ops) && s.durable == |s.trace|
    requires Run(g, s, acts, s') && s'.trace <= Flat(ops + [op])
    ensures GoodLog(g, s'.disk)
    ensures SameHome(g, Recovered(g, s'.disk), After(boot, ops))
      || SameHome(g, Recovered(g, s'.disk), Applied(After(boot, ops), op.puts))
  {
    hide LogInvariant.Inv, Recovered, GoodLog, Init, Run, Flat, Replay, Applied;
    InitInv(g, boot, s0);
    RunKeepsInv(g, boot, s0, before, s);
    RunKeepsInv(g, boot, s, acts, s');
    DurableForever(g, boot, s, acts, s');
    var j := RecoveredOps(g, boot, s', ops + [op]);
    assert (ops + [op])[..|ops|] == ops && (ops + [op])[..|ops| + 1] == ops + [op];
    assert j < |ops| ==> (ops + [op])[..j] == ops[..j];
    if j < |ops| { FlatLonger(ops, j); }
  }

  /** The same for operations that overlap: if the file system is consistent whenever
      no operation is open, it is after every recovery. */
  lemma {:induction false} QuietConsistent(g: Geometry, sb: Super, n: nat, boot: Disk, s0: State, acts: seq<Action>,
      s: State)
    requires Layout(g, sb) && Init(g, boot, s0) && Run(g, s0, acts, s)
    requires forall k: nat :: k <= |s.trace| && Open(s.trace[..k]) == {} ==>
      Consistent(sb, n, Replay(boot, s.trace[..k]))
    ensures GoodLog(g, s.disk) && Consistent(sb, n, Recovered(g, s.disk))
  {
    hide LogInvariant.Inv, Recovered, GoodLog, Run, Init, Consistent, Replay, Open, Bracketed;
    InitInv(g, boot, s0);
    RunKeepsInv(g, boot, s0, acts, s);
    InvRecovers(g, boot, s);
    ConsistentHome(g, sb, n, Replay(boot, s.trace[..s.durable]), Recovered(g, s.disk));
  }

  // ----- the operations of Fs make such histories -----

  /** The file system is where this history has led. */
  ghost predicate InHistory(fs: Fs.Fs, n: nat, boot: Disk, ops: seq<Op>)
    reads fs
  {
    && fs.Valid() && fs.dirty == {} && (forall i: nat :: i in fs.ino <==> 1 <= i < n)
    && History(fs.sb, n, boot, ops) && After(boot, ops) == fs.blocks
  }

  lemma {:induction false} OnDisk(sb: Super, n: nat, blocks: Blocks, ino: Inodes, owner: Owners)
    requires FsOk(sb, blocks, ino, owner) && NoTaken(owner) && Stored(sb, blocks, ino, {})
    requires forall i: nat :: i in ino <==> 1 <= i < n
    ensures Consistent(sb, n, blocks) && InodesOf(sb, blocks, n) == ino
  {
    hide FsOk, NoTaken, GetInode;
    forall i: nat ensures i in ino <==> i in InodesOf(sb, blocks, n) {
      assert StoredAt(sb, blocks, ino, {}, i);
    }
    forall i: nat | i in ino ensures InodesOf(sb, blocks, n)[i] == ino[i] {
      assert StoredAt(sb, blocks, ino, {}, i);
    }
    assert InodesOf(sb, blocks, n) == ino;
  }

  /** What thread t has given to log_write since begin_op is one more operation. */
  lemma {:induction false} OpDone(fs: Fs.Fs, n: nat, boot: Disk, ops: seq<Op>, t: nat)
    requires fs.Valid() && fs.dirty == {} && (forall i: nat :: i in fs.ino <==> 1 <= i < n)
    requires History(fs.sb, n, boot, ops) && After(boot, ops) == fs.start
    ensures InHistory(fs, n, boot, ops + [Op(t, fs.puts)])
  {
    hide FsOk, NoTaken, Stored, Applied, Consistent;
    OnDisk(fs.sb, n, fs.blocks, fs.ino, fs.owner);
    assert (ops + [Op(t, fs.puts)])[..|ops|] == ops;
  }

  /** mkfs: the empty history. */
  method Format(size: nat, inodestart: nat, bmapstart: nat, data: nat, n: nat) returns (fs: Fs.Fs)
    requires 0 < data <= size < TWO_31 && bmapstart + (size + Bitmap.BPB - 1) / Bitmap.BPB <= data
    requires inodestart + n / IPB + 1 <= bmapstart
    ensures fresh(fs) && InHistory(fs, n, fs.blocks, [])
  {
    hide FsOk, NoTaken, Stored, Applied;
    fs := new Fs.Fs(size, inodestart, bmapstart, data, n);
    OnDisk(fs.sb, n, fs.blocks, fs.ino, fs.owner);
  }

  /** One operation of filewrite, and its place in the history. */
  method WriteLogged(fs: Fs.Fs, n: nat, t: nat, i: nat, off: nat, src: seq<Byte>, ghost boot: Disk, ghost ops: seq<Op>)
      returns (r: Option<nat>)
    requires InHistory(fs, n, boot, ops) && i in fs.ino && fs.ino[i].typ != 0
    requires off < TWO_32 && |src| <= FileWrite.MAXWRITE && fs.sb.size <= Bitmap.BPB
    modifies fs
    ensures InHistory(fs, n, boot, ops + [Op(t, fs.puts)]) && |Targets(fs.puts)| <= MAXOPBLOCKS
    ensures r.Some? ==>
      && r.value <= |src| && InodeAt(old(fs.ino), i) && i in fs.ino && InodeAt(fs.ino, i)
      && off <= old(fs.ino)[i].size
      && File(fs.blocks, fs.ino[i]) == Splice(File(old(fs.blocks), old(fs.ino)[i]), off, src[..r.value])
  {
    hide FsOk, NoTaken, Stored, Applied, History, After, OthersSame, File, Splice;
    r := FileWrite.WriteOp(fs, i, off, src);
    OpDone(fs, n, boot, ops, t);
  }

  /** iput() of the last reference to an inode without links, as one operation. */
  method FreeLogged(fs: Fs.Fs, n: nat, t: nat, i: nat, ghost boot: Disk, ghost ops: seq<Op>)
    requires InHistory(fs, n, boot, ops) && i in fs.ino && fs.ino[i].nlink == 0
    modifies fs
    ensures InHistory(fs, n, boot, ops + [Op(t, fs.puts)])
    ensures i in fs.ino && fs.ino[i].typ == 0 && OthersSame(old(fs.blocks), old(fs.ino), fs.blocks, fs.ino, i)
  {
    hide FsOk, NoTaken, Stored, Applied, History, After, OthersSame;
    fs.BeginOp();
    fs.IputLast(i);
    OpDone(fs, n, boot, ops, t);
  }

  /** create() of a file, as one operation: the inode and its name become durable
      together or not at all. */
  method CreateLogged(fs: Fs.Fs, n: nat, t: nat, d: nat, name: Names.Str, typ: nat, ghost boot: Disk,
      ghost ops: seq<Op>) returns (r: Option<nat>)
    requires InHistory(fs, n, boot, ops) && Sysfile.CanCreate(fs.blocks, fs.ino, d, name, typ, n)
    modifies fs
    ensures InHistory(fs, n, boot, ops + [Op(t, fs.puts)])
    ensures Sysfile.Created(old(fs.blocks), old(fs.ino), fs.blocks, fs.ino, d, Names.Key(name), typ, r)
  {
    hide FsOk, NoTaken, Stored, Applied, History, After, Sysfile.Created, Sysfile.CanCreate;
    fs.BeginOp();
    r := Sysfile.Create(fs, d, name, typ, n);
    OpDone(fs, n, boot, ops, t);
  }
}
