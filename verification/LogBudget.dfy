/** Log space: begin_op's admission rule against log_write's panic. */
module LogBudget {
  import opened Bytes
  import opened LogFormat
  import Log

  /** The listed blocks, and for each thread slot the distinct blocks the
      operation running there has logged, if one is running. */
  datatype Space = Space(lh: seq<U32>, ops: seq<Option<set<nat>>>)

  datatype Step = BeginOp(t: nat) | LogWrite(t: nat, b: U32) | EndOp(t: nat) | Commit

  /** log_write's "too big a transaction"; tested before absorption. */
  predicate Panics(size: nat, lh: seq<U32>) {
    |lh| >= LOGSIZE || |lh| >= size - 1
  }

  function Outstanding(ops: seq<Option<set<nat>>>): (n: nat)
    ensures n <= |ops|
  {
    if ops == [] then 0
    else Outstanding(ops[..|ops| - 1]) + One(ops[|ops| - 1])
  }

  /** Blocks the running operations may still add to the log. */
  function Reserved(ops: seq<Option<set<nat>>>): (n: int) {
    if ops == [] then 0
    else Reserved(ops[..|ops| - 1]) + Room(ops[|ops| - 1])
  }

  function Room(op: Option<set<nat>>): (n: int) {
    if op.Some? then MAXOPBLOCKS - |op.value| else 0
  }

  function One(op: Option<set<nat>>): (n: nat) {
    if op.Some? then 1 else 0
  }

  predicate Running(s: Space, t: nat) {
    t < |s.ops| && s.ops[t].Some?
  }

  /** Steps of operations that log at most MAXOPBLOCKS distinct blocks each, on
      an on-disk log of `size` blocks. */
  predicate Enabled(size: nat, s: Space, a: Step) {
    match a
    case BeginOp(t) => t < |s.ops| && s.ops[t].None? && Log.Admits(|s.lh|, Outstanding(s.ops))
    case LogWrite(t, b) => Running(s, t) && |s.ops[t].value + {b}| <= MAXOPBLOCKS && !Panics(size, s.lh)
    case EndOp(t) => Running(s, t)
    case Commit => Outstanding(s.ops) == 0
  }

  function Do(size: nat, s: Space, a: Step): (r: Space)
    requires Enabled(size, s, a)
  {
    match a
    case BeginOp(t) => s.(ops := s.ops[t := Some({})])
    case LogWrite(t, b) => s.(lh := Log.Absorb(s.lh, b), ops := s.ops[t := Some(s.ops[t].value + {b})])
    case EndOp(t) => s.(ops := s.ops[t := None])
    case Commit => s.(lh := [])
  }

  ghost predicate Run(size: nat, s: Space, acts: seq<Step>, s': Space)
    decreases |acts|
  {
    if acts == [] then s == s'
    else Enabled(size, s, acts[0]) && Run(size, Do(size, s, acts[0]), acts[1..], s')
  }

  function Idle(threads: nat): (s: Space) {
    Space([], seq(threads, _ => None))
  }

  /** The listed blocks and the reservations of running operations fit. */
  ghost predicate Fits(s: Space) {
    && |s.lh| + Reserved(s.ops) <= LOGSIZE
    && forall t :: 0 <= t < |s.ops| && s.ops[t].Some? ==>
         |s.ops[t].value| <= MAXOPBLOCKS && forall b :: b in s.ops[t].value ==> b in s.lh
  }

  lemma {:induction false} SlotUpdate(ops: seq<Option<set<nat>>>, t: nat, op: Option<set<nat>>)
    requires t < |ops|
    ensures Reserved(ops[t := op]) == Reserved(ops) - Room(ops[t]) + Room(op)
    ensures Outstanding(ops[t := op]) == Outstanding(ops) - One(ops[t]) + One(op)
  {
    var n := |ops| - 1;
    if t < n {
      SlotUpdate(ops[..n], t, op);
      assert ops[t := op][..n] == ops[..n][t := op];
    } else {
      assert ops[t := op][..n] == ops[..n];
    }
  }

  lemma {:induction false} ReservedBounds(ops: seq<Option<set<nat>>>)
    requires forall t :: 0 <= t < |ops| && ops[t].Some? ==> |ops[t].value| <= MAXOPBLOCKS
    ensures 0 <= Reserved(ops) <= Outstanding(ops) * MAXOPBLOCKS
  {
    if ops != [] {
      ReservedBounds(ops[..|ops| - 1]);
    }
  }

  lemma {:induction false} ReservedAtLeast(ops: seq<Option<set<nat>>>, t: nat)
    requires t < |ops| && ops[t].Some?
    requires forall t :: 0 <= t < |ops| && ops[t].Some? ==> |ops[t].value| <= MAXOPBLOCKS
    ensures Reserved(ops) >= MAXOPBLOCKS - |ops[t].value|
  {
    var n := |ops| - 1;
    if t < n {
      ReservedAtLeast(ops[..n], t);
    } else {
      ReservedBounds(ops[..n]);
    }
  }

  lemma {:induction false} StepFits(size: nat, s: Space, a: Step)
    requires Fits(s) && Enabled(size, s, a)
    ensures Fits(Do(size, s, a))
  {
    match a {
      case BeginOp(t) =>
        SlotUpdate(s.ops, t, Some({}));
        ReservedBounds(s.ops);
      case LogWrite(t, b) =>
        var l := s.ops[t].value;
        SlotUpdate(s.ops, t, Some(l + {b}));
        assert b in l ==> l + {b} == l;
      case EndOp(t) =>
        SlotUpdate(s.ops, t, None);
      case Commit =>
        NoneRunning(s.ops);
        ReservedBounds(s.ops);
    }
  }

  lemma {:induction false} NoneRunning(ops: seq<Option<set<nat>>>)
    requires Outstanding(ops) == 0
    ensures forall t :: 0 <= t < |ops| ==> ops[t].None?
  {
    if ops != [] {
      NoneRunning(ops[..|ops| - 1]);
    }
  }

  lemma {:induction false} RunFits(size: nat, s: Space, acts: seq<Step>, s': Space)
    requires Fits(s) && Run(size, s, acts, s')
    ensures Fits(s')
    decreases |acts|
  {
    if acts != [] {
      StepFits(size, s, acts[0]);
      RunFits(size, Do(size, s, acts[0]), acts[1..], s');
    }
  }

  lemma {:induction false} IdleFits(threads: nat)
    ensures Fits(Idle(threads)) && Outstanding(Idle(threads).ops) == 0 && Reserved(Idle(threads).ops) == 0
  {
    if threads > 0 {
      IdleFits(threads - 1);
      assert Idle(threads).ops[..threads - 1] == Idle(threads - 1).ops;
    }
  }

  /** On a log of at least LOGSIZE+1 blocks, an operation within its budget can
      always log a block that is new to it. */
  lemma {:induction false} FreshBlockNeverPanics(size: nat, threads: nat, acts: seq<Step>, s: Space, t: nat, b: U32)
    requires size >= LOGSIZE + 1
    requires Run(size, Idle(threads), acts, s) && Running(s, t)
    requires b !in s.ops[t].value && |s.ops[t].value| < MAXOPBLOCKS
    ensures !Panics(size, s.lh)
  {
    IdleFits(threads);
    RunFits(size, Idle(threads), acts, s);
    ReservedAtLeast(s.ops, t);
  }

  // ----- a shorter log does panic -----

  /** Blocks 10t .. 10t+9 below n: what thread t has logged after n writes. */
  function Share(t: nat, n: nat): (l: set<nat>)
    requires n <= LOGSIZE
    ensures forall x :: x in l ==> x < n
  {
    if n == 0 then {}
    else if (n - 1) / MAXOPBLOCKS == t then Share(t, n - 1) + {n - 1}
    else Share(t, n - 1)
  }

  /** Three operations that have logged blocks 0 .. n-1 between them. */
  function Filled(n: nat): (s: Space)
    requires n <= LOGSIZE
  {
    Space(seq(n, i requires 0 <= i < n => i), [Some(Share(0, n)), Some(Share(1, n)), Some(Share(2, n))])
  }

  function FillSteps(n: nat): (acts: seq<Step>)
    requires n <= LOGSIZE
  {
    if n == 0 then [BeginOp(0), BeginOp(1), BeginOp(2)] else FillSteps(n - 1) + [LogWrite((n - 1) / MAXOPBLOCKS, n - 1)]
  }

  lemma {:induction false} RunAppend(size: nat, s: Space, acts: seq<Step>, s': Space, a: Step)
    requires Run(size, s, acts, s') && Enabled(size, s', a)
    ensures Run(size, s, acts + [a], Do(size, s', a))
    decreases |acts|
  {
    if acts == [] {
      assert (acts + [a])[1..] == [];
    } else {
      RunAppend(size, Do(size, s, acts[0]), acts[1..], s', a);
      assert (acts + [a])[1..] == acts[1..] + [a];
    }
  }

  lemma {:induction false} ShareSize(t: nat, n: nat)
    requires n <= LOGSIZE
    ensures n / MAXOPBLOCKS == t ==> |Share(t, n)| == n % MAXOPBLOCKS
    ensures n / MAXOPBLOCKS < t ==> Share(t, n) == {}
  {
    if n > 0 {
      ShareSize(t, n - 1);
    }
  }

  lemma {:induction false} FillOps(n: nat, t: nat)
    requires 0 < n <= LOGSIZE && t == (n - 1) / MAXOPBLOCKS
    ensures t < 3 && Filled(n - 1).ops[t] == Some(Share(t, n - 1))
    ensures Filled(n).ops == Filled(n - 1).ops[t := Some(Share(t, n - 1) + {n - 1})]
    ensures Filled(n).lh == Filled(n - 1).lh + [n - 1]
  {
  }

  lemma {:induction false} FillOne(size: nat, n: nat)
    requires 0 < n <= LOGSIZE && n < size
    ensures Enabled(size, Filled(n - 1), LogWrite((n - 1) / MAXOPBLOCKS, n - 1))
    ensures Do(size, Filled(n - 1), LogWrite((n - 1) / MAXOPBLOCKS, n - 1)) == Filled(n)
  {
    var t, s := (n - 1) / MAXOPBLOCKS, Filled(n - 1);
    FillOps(n, t);
    assert |Share(t, n - 1) + {n - 1}| <= MAXOPBLOCKS by { ShareSize(t, n - 1); }
    assert (n - 1) !in s.lh;
  }

  lemma {:induction false} FillStart(size: nat)
    ensures Run(size, Idle(3), FillSteps(0), Filled(0))
  {
    var s0 := Idle(3);
    IdleFits(3);
    assert Share(0, 0) == Share(1, 0) == Share(2, 0) == {};
    var s1 := Do(size, s0, BeginOp(0));
    SlotUpdate(s0.ops, 0, Some({}));
    assert Outstanding(s1.ops) == 1;
    var s2 := Do(size, s1, BeginOp(1));
    SlotUpdate(s1.ops, 1, Some({}));
    assert Outstanding(s2.ops) == 2;
    var s3 := Do(size, s2, BeginOp(2));
    assert s3 == Filled(0);
    RunAppend(size, s0, [], s0, BeginOp(0));
    RunAppend(size, s0, [BeginOp(0)], s1, BeginOp(1));
    RunAppend(size, s0, [BeginOp(0), BeginOp(1)], s2, BeginOp(2));
  }

  /** begin_op lets three operations in at once, and they can fill the log. */
  lemma {:induction false} CanFill(size: nat, n: nat)
    requires n <= LOGSIZE && n < size
    ensures Run(size, Idle(3), FillSteps(n), Filled(n))
  {
    if n == 0 {
      FillStart(size);
    } else {
      CanFill(size, n - 1);
      FillOne(size, n);
      RunAppend(size, Idle(3), FillSteps(n - 1), Filled(n - 1), LogWrite((n - 1) / MAXOPBLOCKS, n - 1));
    }
  }

  /** Logging a fresh block within budget panics in some run. */
  ghost predicate CanPanic(size: nat) {
    exists threads: nat, acts: seq<Step>, s: Space, t: nat, b: U32 :: PanicAt(size, threads, acts, s, t, b)
  }

  ghost predicate PanicAt(size: nat, threads: nat, acts: seq<Step>, s: Space, t: nat, b: U32) {
    && Run(size, Idle(threads), acts, s) && Running(s, t)
    && b !in s.ops[t].value && |s.ops[t].value| < MAXOPBLOCKS && Panics(size, s.lh)
  }

  /** The exact condition: the on-disk log needs one block more than LOGSIZE.
      mkfs makes it exactly LOGSIZE blocks, one short. */
  lemma {:induction false} LogSizeExact(size: nat)
    ensures CanPanic(size) <==> size <= LOGSIZE
  {
    if size == 0 {
      FillStart(size);
      assert Share(0, 0) == {};
      assert PanicAt(size, 3, FillSteps(0), Filled(0), 0, 0);
    } else if size <= LOGSIZE {
      var n := size - 1;
      CanFill(size, n);
      ShareSize(n / MAXOPBLOCKS, n);
      assert PanicAt(size, 3, FillSteps(n), Filled(n), n / MAXOPBLOCKS, n);
    } else {
      forall threads: nat, acts: seq<Step>, s: Space, t: nat, b: U32
        ensures !PanicAt(size, threads, acts, s, t, b)
      {
        if Run(size, Idle(threads), acts, s) && Running(s, t) && b !in s.ops[t].value
          && |s.ops[t].value| < MAXOPBLOCKS {
          FreshBlockNeverPanics(size, threads, acts, s, t, b);
        }
      }
    }
  }

  // ----- absorption -----

  lemma {:induction false} FirstShare(n: nat)
    requires 0 < n <= LOGSIZE
    ensures 0 in Share(0, n)
  {
    if n > 1 { FirstShare(n - 1); }
  }

  /** An operation logs a block again that it has logged before: this needs no space,
      yet it panics. */
  ghost predicate RelogPanicAt(size: nat, threads: nat, acts: seq<Step>, s: Space, t: nat, b: U32) {
    && Run(size, Idle(threads), acts, s) && Running(s, t)
    && b in s.ops[t].value && Log.Absorb(s.lh, b) == s.lh && Panics(size, s.lh)
  }

  ghost predicate CanRelogPanic(size: nat) {
    exists threads: nat, acts: seq<Step>, s: Space, t: nat, b: U32 :: RelogPanicAt(size, threads, acts, s, t, b)
  }

  ghost predicate NothingLogged(s: Space) {
    forall t :: 0 <= t < |s.ops| && s.ops[t].Some? ==> s.ops[t].value == {}
  }

  lemma {:induction false} TooSmall(size: nat, s: Space, acts: seq<Step>, s': Space)
    requires size <= 1 && NothingLogged(s) && Run(size, s, acts, s')
    ensures NothingLogged(s')
    decreases |acts|
  {
    if acts != [] { TooSmall(size, Do(size, s, acts[0]), acts[1..], s'); }
  }

  /** Because the size test comes before absorption, an operation can panic on a block
      it has already logged, on every log in which a block can be logged at all. */
  lemma {:induction false} AbsorptionCanPanic(size: nat)
    ensures CanRelogPanic(size) <==> size >= 2
  {
    if size >= 2 {
      var n := if size - 1 < LOGSIZE then size - 1 else LOGSIZE;
      CanFill(size, n);
      FirstShare(n);
      assert Filled(n).lh[0] == 0;
      assert RelogPanicAt(size, 3, FillSteps(n), Filled(n), 0, 0);
    } else {
      forall threads: nat, acts: seq<Step>, s: Space, t: nat, b: U32
        ensures !RelogPanicAt(size, threads, acts, s, t, b)
      {
        if Run(size, Idle(threads), acts, s) { TooSmall(size, Idle(threads), acts, s); }
      }
    }
  }
}
