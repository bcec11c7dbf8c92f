/** Runs of the virtio driver and its device: requests, the device's moves in any
    order, and interrupts, with the 16-bit ring indices the two sides share. */
module VirtioMachine {
  import opened Bytes
  import opened Virtio

  /** The driver's structures; avail->idx, how far the device has read the avail
      ring, used->idx and disk.used_idx, 16 bits each; what the buffers and the disk
      hold; the requests the interrupt handler has dealt with. */
  datatype Sys = Sys(v: View, availIdx: nat, takenIdx: nat, doneIdx: nat, seenIdx: nat,
                     data: map<nat, Block>, disk: map<nat, Block>, handled: set<nat>)

  datatype Step =
    | Start(h: nat, i: nat, j: nat, b: nat, op: Op) // virtio_disk_rw until it waits
    | Take                                          // the device reads the avail ring
    | Complete(h: nat)                              // the device completes a request
    | Intr                                          // one round of virtio_disk_intr's loop
    | Return(h: nat)                                // virtio_disk_rw after the wait
    | Fill(b: nat, x: Block)                        // a thread changes a buffer that is not in flight

  function Next16(x: nat): (r: nat) { (x + 1) % TWO_16 }

  /** The caller of virtio_disk_rw holds the lock of b, so b is not in flight; the
      three descriptors come from alloc3_desc. */
  predicate CanStart(q: Sys, h: nat, i: nat, j: nat, b: nat, op: Op) {
    Sizes(q.v) && Distinct3(h, i, j) && q.v.free[h] && q.v.free[i] && q.v.free[j] && b !in q.v.heads && b in q.data
      && op.blockno in q.disk
  }

  predicate CanTake(q: Sys) {
    Sizes(q.v) && q.takenIdx != q.availIdx && q.v.avail[q.takenIdx % NUM] in q.v.req
  }

  /** What the device finds when it follows the chain from h. */
  predicate CanComplete(q: Sys, h: nat) {
    && Sizes(q.v) && h in q.v.req && q.v.req[h].at.AtDevice? && h < NUM
    && q.v.desc[h].addr.ToOp? && q.v.desc[h].addr.i < NUM && q.v.desc[h].next < NUM
    && var d := q.v.desc[q.v.desc[h].next];
    && d.addr.ToData? && d.addr.b in q.data && q.v.ops[q.v.desc[h].addr.i].blockno in q.disk
    && d.next < NUM && q.v.desc[d.next].addr.ToStatus? && q.v.desc[d.next].addr.i < NUM
  }

  /** There is an entry; info[id] names a buffer and its status is success. */
  predicate CanIntr(q: Sys) {
    && Sizes(q.v) && q.seenIdx != q.doneIdx && q.v.used[q.seenIdx % NUM] < NUM && q.v.used[q.seenIdx % NUM] in q.v.req
    && q.v.info[q.v.used[q.seenIdx % NUM]].status == 0 && q.v.info[q.v.used[q.seenIdx % NUM]].b.Some?
  }

  /** The thread that made request h finds the disk flag of its buffer cleared;
      free_desc does not panic on its chain. */
  predicate CanReturn(q: Sys, h: nat) {
    && Sizes(q.v) && h in q.v.req && h < NUM && q.v.req[h].b !in q.v.busy && q.v.desc[h].next < NUM
    && Distinct3(h, q.v.desc[h].next, q.v.desc[q.v.desc[h].next].next)
    && !q.v.free[h] && !q.v.free[q.v.desc[h].next] && !q.v.free[q.v.desc[q.v.desc[h].next].next]
  }

  predicate Enabled(q: Sys, a: Step) {
    match a
    case Start(h, i, j, b, op) => CanStart(q, h, i, j, b, op)
    case Take => CanTake(q)
    case Complete(h) => CanComplete(q, h)
    case Intr => CanIntr(q)
    case Return(h) => CanReturn(q, h)
    case Fill(b, _) => b in q.data && b !in q.v.heads
  }

  function AfterStart(q: Sys, h: nat, i: nat, j: nat, b: nat, op: Op): (r: Sys)
    requires CanStart(q, h, i, j, b, op)
  {
    q.(v := Started(q.v, h, i, j, b, op, q.availIdx % NUM), availIdx := Next16(q.availIdx))
  }

  function AfterTake(q: Sys): (r: Sys)
    requires CanTake(q)
  {
    q.(v := Taken(q.v, q.v.avail[q.takenIdx % NUM]), takenIdx := Next16(q.takenIdx))
  }

  function AfterComplete(q: Sys, h: nat): (r: Sys)
    requires CanComplete(q, h)
  {
    var op, d := q.v.ops[q.v.desc[h].addr.i], q.v.desc[q.v.desc[h].next];
    q.(v := Completed(q.v, h, q.v.desc[d.next].addr.i, q.doneIdx % NUM), doneIdx := Next16(q.doneIdx),
       data := if d.devWrites then q.data[d.addr.b := q.disk[op.blockno]] else q.data,
       disk := if d.devWrites then q.disk else q.disk[op.blockno := q.data[d.addr.b]])
  }

  function AfterIntr(q: Sys): (r: Sys)
    requires CanIntr(q)
  {
    var h := q.v.used[q.seenIdx % NUM];
    q.(v := Seen(q.v, h, q.v.info[h].b.value), seenIdx := Next16(q.seenIdx), handled := q.handled + {q.v.req[h].id})
  }

  function AfterReturn(q: Sys, h: nat): (r: Sys)
    requires CanReturn(q, h)
  {
    q.(v := Returned(q.v, h, q.v.desc[h].next, q.v.desc[q.v.desc[h].next].next))
  }

  function Do(q: Sys, a: Step): (r: Sys)
    requires Enabled(q, a)
  {
    match a
    case Start(h, i, j, b, op) => AfterStart(q, h, i, j, b, op)
    case Take => AfterTake(q)
    case Complete(h) => AfterComplete(q, h)
    case Intr => AfterIntr(q)
    case Return(h) => AfterReturn(q, h)
    case Fill(b, x) => q.(data := q.data[b := x])
  }

  // ----- the invariant -----

  predicate ReqAt(q: Sys, h: nat) {
    h in q.v.req ==>
      && q.v.req[h].b in q.data && q.v.req[h].op.blockno in q.disk
      && (q.v.req[h].id in q.handled <==> q.v.req[h].at.Handled?)
  }

  ghost predicate SysOk(q: Sys) {
    && Ok(q.v) && q.availIdx == q.v.made % TWO_16 && q.takenIdx == q.v.taken % TWO_16
    && q.doneIdx == q.v.done % TWO_16 && q.seenIdx == q.v.seen % TWO_16
    && (forall x :: x in q.handled ==> x < q.v.made)
    && (forall h: nat {:trigger ReqAt(q, h)} :: ReqAt(q, h))
  }

  predicate Init(q: Sys) {
    && q.v == View(seq(NUM, _ => true), seq(NUM, _ => NO_DESC), seq(NUM, _ => Op(false, 0)),
        seq(NUM, _ => Info(None, 0)), seq(NUM, _ => 0),
                   seq(NUM, _ => 0), {}, seq(NUM, _ => None), map[], map[], map[], 0, 0, 0, 0)
    && q.availIdx == 0 && q.takenIdx == 0 && q.doneIdx == 0 && q.seenIdx == 0 && q.handled == {}
  }

  lemma {:induction false} InitOk(q: Sys)
    requires Init(q)
    ensures SysOk(q)
  {
    forall x: nat ensures AllAt(q.v, x) {
    }
  }

  lemma {:induction false} StartKeeps(q: Sys, h: nat, i: nat, j: nat, b: nat, op: Op)
    requires SysOk(q) && CanStart(q, h, i, j, b, op)
    ensures SysOk(AfterStart(q, h, i, j, b, op))
  {
    var q' := AfterStart(q, h, i, j, b, op);
    StartOk(q.v, h, i, j, b, op);
    IndexWraps(q.v.made);
    forall g: nat ensures ReqAt(q', g) {
      assert ReqAt(q, g);
    }
  }

  /** The device finds an entry exactly if there is a request it has not taken. */
  lemma {:induction false} TakeIff(q: Sys)
    requires SysOk(q)
    ensures CanTake(q) <==> q.v.taken < q.v.made
    ensures CanTake(q) ==> q.v.req[q.v.avail[q.takenIdx % NUM]].at == InAvail(q.v.taken)
  {
    RingsFit(q.v);
    IndexEqual(q.v.taken, q.v.made);
    IndexWraps(q.v.taken);
    if q.v.taken < q.v.made { TakeOk(q.v); }
  }

  lemma {:induction false} TakeKeeps(q: Sys)
    requires SysOk(q) && CanTake(q)
    ensures SysOk(AfterTake(q))
  {
    var q' := AfterTake(q);
    TakeIff(q);
    TakeOk(q.v);
    IndexWraps(q.v.taken);
    forall g: nat ensures ReqAt(q', g) {
      assert ReqAt(q, g);
    }
  }

  /** Following the chain, the device finds the request's own block and buffer and
      its own status byte. */
  lemma {:induction false} ChainFound(q: Sys, h: nat)
    requires SysOk(q) && h in q.v.req && q.v.req[h].at.AtDevice?
    ensures CanComplete(q, h)
    ensures var d := q.v.desc[q.v.desc[h].next];
      && q.v.ops[q.v.desc[h].addr.i] == q.v.req[h].op && d.addr == ToData(q.v.req[h].b)
      && d.devWrites == !q.v.req[h].op.write
      && q.v.desc[d.next].addr == ToStatus(h)
  {
    assert ChainAt(q.v, h) && ReqAt(q, h);
  }

  lemma {:induction false} CompleteKeeps(q: Sys, h: nat)
    requires SysOk(q) && CanComplete(q, h)
    ensures SysOk(AfterComplete(q, h))
  {
    var q' := AfterComplete(q, h);
    ChainFound(q, h);
    CompleteOk(q.v, h);
    IndexWraps(q.v.done);
    forall g: nat ensures ReqAt(q', g) {
      assert ReqAt(q, g);
    }
  }

  /** The interrupt handler finds an entry exactly if a completion is new, and what
      it finds is a request with a buffer and a good status: it does not panic. */
  lemma {:induction false} IntrIff(q: Sys)
    requires SysOk(q)
    ensures CanIntr(q) <==> q.v.seen < q.v.done
    ensures q.seenIdx != q.doneIdx ==> CanIntr(q)
    ensures CanIntr(q) ==> var h := q.v.used[q.seenIdx % NUM];
      q.v.req[h].at == InUsed(q.v.seen) && q.v.info[h].b == Some(q.v.req[h].b) && q.v.req[h].b in q.v.busy
        && q.v.req[h].id !in q.handled
  {
    RingsFit(q.v);
    IndexEqual(q.v.seen, q.v.done);
    IndexWraps(q.v.seen);
    if q.v.seen < q.v.done {
      SeeOk(q.v);
      assert ReqAt(q, q.v.used[q.v.seen % NUM]);
    }
  }

  lemma {:induction false} IntrKeeps(q: Sys)
    requires SysOk(q) && CanIntr(q)
    ensures SysOk(AfterIntr(q))
  {
    var q' := AfterIntr(q);
    IntrIff(q);
    SeeOk(q.v);
    IndexWraps(q.v.seen);
    var h := q.v.used[q.seenIdx % NUM];
    assert InfoAt(q.v, h);
    forall g: nat ensures ReqAt(q', g) {
      assert ReqAt(q, g) && InfoAt(q.v, g);
      if g in q.v.req && g != h { assert ChainAt(q.v, g); }
    }
  }

  /** A thread whose buffer's flag is cleared can go on, and no free_desc panics. */
  lemma {:induction false} ReturnIff(q: Sys, h: nat)
    requires SysOk(q) && h in q.v.req
    ensures CanReturn(q, h) <==> q.v.req[h].b !in q.v.busy
    ensures CanReturn(q, h) <==> q.v.req[h].id in q.handled
  {
    assert ChainAt(q.v, h) && InfoAt(q.v, h) && ReqAt(q, h);
    if q.v.req[h].at.Handled? {
      ReturnOk(q.v, h, q.v.desc[h].next, q.v.desc[q.v.desc[h].next].next);
    }
  }

  lemma {:induction false} ReturnKeeps(q: Sys, h: nat)
    requires SysOk(q) && CanReturn(q, h)
    ensures SysOk(AfterReturn(q, h))
  {
    var q' := AfterReturn(q, h);
    assert InfoAt(q.v, h);
    ReturnOk(q.v, h, q.v.desc[h].next, q.v.desc[q.v.desc[h].next].next);
    forall g: nat ensures ReqAt(q', g) {
      assert ReqAt(q, g);
    }
  }

  lemma {:induction false} FillKeeps(q: Sys, b: nat, x: Block)
    requires SysOk(q) && b in q.data
    ensures SysOk(q.(data := q.data[b := x]))
  {
    var q' := q.(data := q.data[b := x]);
    forall g: nat ensures ReqAt(q', g) {
      assert ReqAt(q, g);
    }
  }

  lemma {:induction false} StepKeeps(q: Sys, a: Step)
    requires SysOk(q) && Enabled(q, a)
    ensures SysOk(Do(q, a))
  {
    match a
    case Start(h, i, j, b, op) => StartKeeps(q, h, i, j, b, op);
    case Take => TakeKeeps(q);
    case Complete(h) => CompleteKeeps(q, h);
    case Intr => IntrKeeps(q);
    case Return(h) => ReturnKeeps(q, h);
    case Fill(b, x) => FillKeeps(q, b, x);
  }

  // ----- runs -----

  ghost predicate Run(states: seq<Sys>, steps: seq<Step>) {
    && |states| == |steps| + 1 && Init(states[0])
    && forall k :: 0 <= k < |steps| ==> Enabled(states[k], steps[k]) && states[k + 1] == Do(states[k], steps[k])
  }

  lemma {:induction false} RunKeeps(states: seq<Sys>, steps: seq<Step>, k: nat)
    requires Run(states, steps) && k < |states|
    ensures SysOk(states[k])
  {
    if k == 0 {
      InitOk(states[0]);
    } else {
      RunKeeps(states, steps, k - 1);
      StepKeeps(states[k - 1], steps[k - 1]);
    }
  }

  /** In every run, with the device completing requests in any order, a descriptor
      is free or in the chain of exactly one request in flight. */
  lemma {:induction false} DescriptorsPartition(states: seq<Sys>, steps: seq<Step>, k: nat, d: nat)
    requires Run(states, steps) && k < |states| && d < NUM
    ensures var v := states[k].v;
      && Sizes(v) && (v.free[d] <==> forall h: nat :: !InChain(v, h, d))
      && forall g: nat, h: nat :: InChain(v, g, d) && InChain(v, h, d) ==> g == h
  {
    var v := states[k].v;
    RunKeeps(states, steps, k);
    assert DescAt(v, d);
    forall h: nat ensures InChain(v, h, d) ==> v.owner[d] == Some(h) {
      assert ChainAt(v, h);
    }
    if !v.free[d] {
      assert ChainAt(v, v.owner[d].value) && InChain(v, v.owner[d].value, d);
    }
  }

  predicate InChain(v: View, h: nat, d: nat) {
    h in v.req && Sizes(v) && h < NUM && v.desc[h].next < NUM
      && (d == h || d == v.desc[h].next || d == v.desc[v.desc[h].next].next)
  }

  /** The ring entry a step fills has been consumed before. */
  lemma {:induction false} NoEntryOverwritten(states: seq<Sys>, steps: seq<Step>, k: nat)
    requires Run(states, steps) && k < |steps|
    ensures var v := states[k].v;
      && (steps[k].Start? ==>
          v.made - v.taken < NUM && forall n: nat :: v.taken <= n < v.made ==> n % NUM != states[k].availIdx % NUM)
      && (steps[k].Complete? ==>
          v.done - v.seen < NUM && forall n: nat :: v.seen <= n < v.done ==> n % NUM != states[k].doneIdx % NUM)
  {
    var q := states[k];
    RunKeeps(states, steps, k);
    assert Enabled(q, steps[k]);
    IndexWraps(q.v.made);
    IndexWraps(q.v.done);
    if steps[k].Start? {
      var h := steps[k].h;
      assert DescAt(q.v, h) && ChainAt(q.v, h);
      RoomInRings(q.v, h, NUM);
      forall n: nat | q.v.taken <= n < q.v.made ensures n % NUM != q.availIdx % NUM { ModApart(n, q.v.made); }
    }
    if steps[k].Complete? {
      SecondIsNoHead(q.v, steps[k].h);
      RoomInRings(q.v, q.v.desc[steps[k].h].next, NUM);
      forall n: nat | q.v.seen <= n < q.v.done ensures n % NUM != q.doneIdx % NUM { ModApart(n, q.v.done); }
    }
  }

  /** The device does to the disk and to the buffers what the request says: it moves
      one block between the request's block and the request's buffer. */
  lemma {:induction false} CompletesOwnRequest(states: seq<Sys>, steps: seq<Step>, k: nat)
    requires Run(states, steps) && k < |steps| && steps[k].Complete?
    ensures var q, q' := states[k], states[k + 1];
      && steps[k].h in q.v.req
      && var r := q.v.req[steps[k].h];
      && r.b in q.data && r.op.blockno in q.disk
      && q'.disk == (if r.op.write then q.disk[r.op.blockno := q.data[r.b]] else q.disk)
      && q'.data == (if r.op.write then q.data else q.data[r.b := q.disk[r.op.blockno]])
  {
    RunKeeps(states, steps, k);
    assert Enabled(states[k], steps[k]) && states[k + 1] == Do(states[k], steps[k]);
    ChainFound(states[k], steps[k].h);
  }

  /** The request the interrupt handler deals with at this step. */
  function HandledId(q: Sys): (id: nat)
    requires CanIntr(q)
  {
    q.v.req[q.v.used[q.seenIdx % NUM]].id
  }

  lemma {:induction false} HandledGrows(states: seq<Sys>, steps: seq<Step>, j: nat, k: nat)
    requires Run(states, steps) && j <= k < |states|
    ensures states[j].handled <= states[k].handled
  {
    if j < k {
      HandledGrows(states, steps, j, k - 1);
      assert Enabled(states[k - 1], steps[k - 1]) && states[k] == Do(states[k - 1], steps[k - 1]);
    }
  }

  /** No request is handled twice. */
  lemma {:induction false} HandledOnce(states: seq<Sys>, steps: seq<Step>, j: nat, k: nat)
    requires Run(states, steps) && j < k < |steps| && steps[j].Intr? && steps[k].Intr?
    ensures CanIntr(states[j]) && CanIntr(states[k]) && HandledId(states[j]) != HandledId(states[k])
  {
    RunKeeps(states, steps, k);
    assert Enabled(states[j], steps[j]) && states[j + 1] == Do(states[j], steps[j]);
    assert Enabled(states[k], steps[k]);
    HandledGrows(states, steps, j + 1, k);
    IntrIff(states[k]);
  }

  /** virtio_disk_rw returns for a request only after the handler dealt with it. */
  lemma {:induction false} ReturnsHandled(states: seq<Sys>, steps: seq<Step>, k: nat)
    requires Run(states, steps) && k < |steps| && steps[k].Return?
    ensures steps[k].h in states[k].v.req && states[k].v.req[steps[k].h].id in states[k].handled
  {
    RunKeeps(states, steps, k);
    assert Enabled(states[k], steps[k]);
    ReturnIff(states[k], steps[k].h);
  }
}
