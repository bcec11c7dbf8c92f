/** The history of every request of the virtio driver: it is started once, completed
    once by the device, and when virtio_disk_rw returns the block has been moved. */
module VirtioHistory {
  import opened Virtio
  import opened VirtioMachine

  predicate Unserved(at: Stage) { at.InAvail? || at.AtDevice? }

  /** Request r is the one q' has under h, now at another stage or the same. */
  predicate SameReq(r: Req, r': Req) {
    r'.id == r.id && r'.b == r.b && r'.op == r.op
  }

  /** How one step moves a request: it starts it, completes it, or leaves it on its
      side of completion, with its buffer untouched. */
  predicate Moves(q: Sys, a: Step, q': Sys, h: nat) {
    h in q'.v.req ==>
      var r' := q'.v.req[h];
      if a.Start? && a.h == h then
        r' == Req(q.v.made, a.b, a.op, InAvail(q.v.made)) && r'.b in q.data && q'.data == q.data
      else
        && h in q.v.req && SameReq(q.v.req[h], r') && r'.b in q.data && r'.b in q'.data
        && if a == Complete(h) then
             && q.v.req[h].at.AtDevice? && r'.at.InUsed? && r'.op.blockno in q.disk && r'.op.blockno in q'.disk
             && (if r'.op.write then q'.disk[r'.op.blockno] == q.data[r'.b] && q'.data[r'.b] == q.data[r'.b]
                 else q'.data[r'.b] == q.disk[r'.op.blockno])
           else (Unserved(r'.at) <==> Unserved(q.v.req[h].at)) && q'.data[r'.b] == q.data[r'.b]
  }

  lemma {:induction false} OwnBuffers(q: Sys, g: nat, h: nat)
    requires SysOk(q) && g in q.v.req && h in q.v.req && g != h
    ensures q.v.req[g].b != q.v.req[h].b
  {
    assert ChainAt(q.v, g) && ChainAt(q.v, h) && InfoAt(q.v, g) && InfoAt(q.v, h);
  }

  lemma {:induction false} CompleteMoves(q: Sys, g: nat, h: nat)
    requires SysOk(q) && CanComplete(q, g)
    ensures Moves(q, Complete(g), AfterComplete(q, g), h)
  {
    ChainFound(q, g);
    assert ReqAt(q, g) && ReqAt(q, h);
    if h in q.v.req && h != g { OwnBuffers(q, g, h); }
  }

  lemma {:induction false} StepMoves(q: Sys, a: Step, h: nat)
    requires SysOk(q) && Enabled(q, a)
    ensures Moves(q, a, Do(q, a), h)
  {
    assert ReqAt(q, h);
    match a {
      case Start(_, _, _, _, _) =>
      case Take => TakeIff(q);
      case Complete(g) => CompleteMoves(q, g, h);
      case Intr => IntrIff(q);
      case Return(_) =>
      case Fill(_, _) => if h in q.v.req { assert ChainAt(q.v, h) && InfoAt(q.v, h); }
    }
  }

  // ----- whole runs -----

  /** Step j completes the request with this number. */
  predicate CompletesAt(states: seq<Sys>, steps: seq<Step>, j: nat, id: nat) {
    && j < |steps| && j < |states| && steps[j].Complete? && steps[j].h in states[j].v.req
    && states[j].v.req[steps[j].h].id == id
  }

  /** Step i starts the request that state k has under h. */
  predicate StartsAt(states: seq<Sys>, steps: seq<Step>, k: nat, h: nat, i: nat) {
    && i < k < |states| && i < |steps| && h in states[k].v.req && steps[i].Start? && steps[i].h == h
    && steps[i].b == states[k].v.req[h].b && steps[i].op == states[k].v.req[h].op
    && states[i].v.made == states[k].v.req[h].id && steps[i].b in states[i].data
  }

  /** Not completed so far; the buffer is as it was. */
  ghost predicate Waiting(states: seq<Sys>, steps: seq<Step>, k: nat, h: nat, i: nat) {
    && StartsAt(states, steps, k, h, i)
    && steps[i].b in states[k].data && states[k].data[steps[i].b] == states[i].data[steps[i].b]
    && forall j: nat {:trigger CompletesAt(states, steps, j, states[i].v.made)} :: j < k ==>
       !CompletesAt(states, steps, j, states[i].v.made)
  }

  /** Completed by step j: a write has put what the buffer held at the start on the
      disk, a read has put what the disk held at step j into the buffer. */
  ghost predicate Served(states: seq<Sys>, steps: seq<Step>, k: nat, h: nat, i: nat, j: nat) {
    && StartsAt(states, steps, k, h, i) && i < j < k && CompletesAt(states, steps, j, states[i].v.made)
    && steps[j] == Complete(h)
    && steps[i].b in states[k].data && steps[i].op.blockno in states[j].disk
    && steps[i].op.blockno in states[j + 1].disk
    && if steps[i].op.write then
         && states[j + 1].disk[steps[i].op.blockno] == states[i].data[steps[i].b]
         && states[k].data[steps[i].b] == states[i].data[steps[i].b]
       else states[k].data[steps[i].b] == states[j].disk[steps[i].op.blockno]
  }

  ghost predicate Past(states: seq<Sys>, steps: seq<Step>, k: nat, h: nat) {
    k < |states| && h in states[k].v.req ==>
      if Unserved(states[k].v.req[h].at) then exists i: nat :: Waiting(states, steps, k, h, i)
      else exists i: nat, j: nat :: Served(states, steps, k, h, i, j)
  }

  lemma {:induction false} IdsBelow(states: seq<Sys>, steps: seq<Step>, j: nat, k: nat, id: nat)
    requires Run(states, steps) && j < k < |states| && CompletesAt(states, steps, j, id)
    ensures id < states[k].v.made
  {
    if j + 1 < k {
      IdsBelow(states, steps, j, k - 1, id);
    } else {
      RunKeeps(states, steps, j);
      assert ChainAt(states[j].v, steps[j].h) && InfoAt(states[j].v, steps[j].h);
    }
    assert Enabled(states[k - 1], steps[k - 1]) && states[k] == Do(states[k - 1], steps[k - 1]);
  }

  lemma {:induction false} PastStart(states: seq<Sys>, steps: seq<Step>, k: nat, h: nat)
    requires Run(states, steps) && 0 < k < |states| && steps[k - 1].Start? && steps[k - 1].h == h
    ensures Past(states, steps, k, h)
  {
    var i := k - 1;
    RunKeeps(states, steps, i);
    assert Enabled(states[i], steps[i]) && states[k] == Do(states[i], steps[i]);
    StepMoves(states[i], steps[i], h);
    forall j: nat | j < k ensures !CompletesAt(states, steps, j, states[i].v.made) {
      if CompletesAt(states, steps, j, states[i].v.made) && j < i { IdsBelow(states, steps, j, i, states[i].v.made); }
    }
    assert Waiting(states, steps, k, h, i);
  }

  lemma {:induction false} PastComplete(states: seq<Sys>, steps: seq<Step>, k: nat, h: nat)
    requires Run(states, steps) && 0 < k < |states| && steps[k - 1] == Complete(h) && Past(states, steps, k - 1, h)
    ensures Past(states, steps, k, h)
  {
    var j := k - 1;
    RunKeeps(states, steps, j);
    assert Enabled(states[j], steps[j]) && states[k] == Do(states[j], steps[j]);
    StepMoves(states[j], steps[j], h);
    var i: nat :| Waiting(states, steps, j, h, i);
    assert Served(states, steps, k, h, i, j);
  }

  lemma {:induction false} PastOther(states: seq<Sys>, steps: seq<Step>, k: nat, h: nat)
    requires Run(states, steps) && 0 < k < |states| && Past(states, steps, k - 1, h) && h in states[k].v.req
    requires steps[k - 1] != Complete(h) && !(steps[k - 1].Start? && steps[k - 1].h == h)
    ensures Past(states, steps, k, h)
  {
    var l := k - 1;
    var q, a := states[l], steps[l];
    RunKeeps(states, steps, l);
    assert Enabled(q, a) && states[k] == Do(q, a);
    StepMoves(q, a, h);
    if Unserved(q.v.req[h].at) {
      var i: nat :| Waiting(states, steps, l, h, i);
      forall j: nat | j < k ensures !CompletesAt(states, steps, j, states[i].v.made) {
        if j == l && a.Complete? && a.h in q.v.req {
          assert ChainAt(q.v, h) && ChainAt(q.v, a.h) && InfoAt(q.v, h) && InfoAt(q.v, a.h);
        }
      }
      assert Waiting(states, steps, k, h, i);
    } else {
      var i: nat, j: nat :| Served(states, steps, l, h, i, j);
      assert Served(states, steps, k, h, i, j);
    }
  }

  lemma {:induction false} PastHolds(states: seq<Sys>, steps: seq<Step>, k: nat, h: nat)
    requires Run(states, steps) && k < |states|
    ensures Past(states, steps, k, h)
  {
    if k > 0 && h in states[k].v.req {
      PastHolds(states, steps, k - 1, h);
      if steps[k - 1].Start? && steps[k - 1].h == h {
        PastStart(states, steps, k, h);
      } else if steps[k - 1] == Complete(h) {
        PastComplete(states, steps, k, h);
      } else {
        PastOther(states, steps, k, h);
      }
    }
  }

  /** The device completes no request twice. */
  lemma {:induction false} CompletedOnce(states: seq<Sys>, steps: seq<Step>, j: nat, k: nat, id: nat)
    requires Run(states, steps) && CompletesAt(states, steps, j, id) && CompletesAt(states, steps, k, id)
    ensures j == k
  {
    if j < k {
      NotAgain(states, steps, j, k, id);
    } else if k < j {
      NotAgain(states, steps, k, j, id);
    }
  }

  lemma {:induction false} NotAgain(states: seq<Sys>, steps: seq<Step>, j: nat, k: nat, id: nat)
    requires Run(states, steps) && j < k && CompletesAt(states, steps, k, id)
    ensures !CompletesAt(states, steps, j, id)
  {
    var h := steps[k].h;
    assert Enabled(states[k], steps[k]);
    PastHolds(states, steps, k, h);
    var i: nat :| Waiting(states, steps, k, h, i);
  }

  /** When virtio_disk_rw returns, its request was completed by exactly one step of the
      device, after it was started: what the caller's buffer held is then on the disk,
      or what the disk held is in the buffer. */
  lemma {:induction false} ReturnsServed(states: seq<Sys>, steps: seq<Step>, k: nat)
    requires Run(states, steps) && k < |steps| && steps[k].Return?
    ensures exists i: nat, j: nat :: Served(states, steps, k, steps[k].h, i, j)
    ensures forall i: nat, j: nat, l: nat ::
      Served(states, steps, k, steps[k].h, i, j) && CompletesAt(states, steps, l, states[i].v.made) ==> l == j
  {
    var h := steps[k].h;
    RunKeeps(states, steps, k);
    assert Enabled(states[k], steps[k]);
    ReturnIff(states[k], h);
    assert ReqAt(states[k], h);
    PastHolds(states, steps, k, h);
    forall i: nat, j: nat, l: nat | Served(states, steps, k, h, i, j)
      && CompletesAt(states, steps, l, states[i].v.made) ensures l == j {
      CompletedOnce(states, steps, j, l, states[i].v.made);
    }
  }
}
