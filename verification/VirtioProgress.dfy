/** No request of the virtio driver gets lost: whatever stage it is at, the step that
    moves it on can be taken, so all requests in flight can come to their return. */
module VirtioProgress {
  import opened Virtio
  import opened VirtioMachine

  /** The steps a request has before it. */
  function Stages(at: Stage): (n: nat) {
    match at
    case InAvail(_) => 4
    case AtDevice => 3
    case InUsed(_) => 2
    case Handled => 1
  }

  function Ahead(req: map<nat, Req>, h: nat): (n: nat) { if h in req then Stages(req[h].at) else 0 }

  /** The same for all requests with a head below n. */
  function Left(req: map<nat, Req>, n: nat): (r: nat) {
    if n == 0 then 0 else Left(req, n - 1) + Ahead(req, n - 1)
  }

  predicate SameAhead(req: map<nat, Req>, req': map<nat, Req>, g: nat, h: nat) {
    h != g ==> Ahead(req', h) == Ahead(req, h)
  }

  lemma {:induction false} LeftDrops(req: map<nat, Req>, req': map<nat, Req>, g: nat, n: nat)
    requires Ahead(req', g) < Ahead(req, g)
    requires forall h: nat {:trigger SameAhead(req, req', g, h)} :: SameAhead(req, req', g, h)
    ensures if g < n then Left(req', n) < Left(req, n) else Left(req', n) == Left(req, n)
  {
    if n > 0 {
      LeftDrops(req, req', g, n - 1);
      assert SameAhead(req, req', g, n - 1);
    }
  }

  /** The step that moves a request on. */
  function NextStep(at: Stage, h: nat): (a: Step) {
    match at
    case InAvail(_) => Take
    case AtDevice => Complete(h)
    case InUsed(_) => Intr
    case Handled => Return(h)
  }

  lemma {:induction false} NextEnabled(q: Sys, h: nat)
    requires SysOk(q) && h in q.v.req
    ensures Enabled(q, NextStep(q.v.req[h].at, h))
  {
    assert StageAt(q.v, h) && ReqAt(q, h) && ChainAt(q.v, h);
    match q.v.req[h].at
    case InAvail(_) => TakeIff(q);
    case AtDevice => ChainFound(q, h);
    case InUsed(_) => IntrIff(q);
    case Handled => ReturnIff(q, h);
  }

  /** The request a step moves. */
  function Moved(q: Sys, a: Step): (g: nat)
    requires Enabled(q, a) && !a.Start? && !a.Fill?
  {
    match a
    case Take => q.v.avail[q.takenIdx % NUM]
    case Complete(h) => h
    case Intr => q.v.used[q.seenIdx % NUM]
    case Return(h) => h
  }

  lemma {:induction false} MovedDrops(q: Sys, a: Step)
    requires SysOk(q) && Enabled(q, a) && !a.Start? && !a.Fill?
    ensures Left(Do(q, a).v.req, NUM) < Left(q.v.req, NUM)
  {
    var g, req, req' := Moved(q, a), q.v.req, Do(q, a).v.req;
    assert ChainAt(q.v, g);
    TakeIff(q);
    IntrIff(q);
    assert Ahead(req', g) < Ahead(req, g);
    assert forall h: nat {:trigger SameAhead(req, req', g, h)} :: SameAhead(req, req', g, h);
    LeftDrops(req, req', g, NUM);
  }

  /** In every run, the step that moves a request on can be taken, until it returns. */
  lemma {:induction false} RequestMovesOn(states: seq<Sys>, steps: seq<Step>, k: nat, h: nat)
    requires Run(states, steps) && k < |states| && h in states[k].v.req
    ensures Enabled(states[k], NextStep(states[k].v.req[h].at, h))
  {
    RunKeeps(states, steps, k);
    NextEnabled(states[k], h);
  }

  lemma {:induction false} OneMore(states: seq<Sys>, steps: seq<Step>, a: Step)
    requires Run(states, steps) && Enabled(states[|steps|], a)
    ensures Run(states + [Do(states[|steps|], a)], steps + [a])
  {
    hide Enabled, Do, Init;
  }

  lemma {:induction false} AllIdle(q: Sys)
    requires SysOk(q) && q.v.req == map[]
    ensures (forall d :: 0 <= d < NUM ==> q.v.free[d]) && q.v.busy == {} && q.v.heads == map[]
  {
    forall d | 0 <= d < NUM ensures q.v.free[d] {
      assert DescAt(q.v, d);
    }
    forall b: nat ensures b !in q.v.busy && b !in q.v.heads {
      assert BufAt(q.v, b);
    }
  }

  /** The run goes on, without new requests, until none is in flight. */
  ghost predicate Drained(states: seq<Sys>, steps: seq<Step>, states': seq<Sys>, steps': seq<Step>) {
    && Run(states', steps') && states <= states' && steps <= steps'
    && (forall k :: |steps| <= k < |steps'| ==> !steps'[k].Start? && !steps'[k].Fill?)
    && states'[|steps'|].v.req == map[]
  }

  lemma {:induction false} Drain(states: seq<Sys>, steps: seq<Step>)
      returns (states': seq<Sys>, steps': seq<Step>)
    requires Run(states, steps)
    ensures Drained(states, steps, states', steps')
    decreases Left(states[|steps|].v.req, NUM)
  {
    var q := states[|steps|];
    if q.v.req == map[] {
      states', steps' := states, steps;
    } else {
      var h: nat :| h in q.v.req;
      RunKeeps(states, steps, |steps|);
      NextEnabled(q, h);
      var a := NextStep(q.v.req[h].at, h);
      MovedDrops(q, a);
      OneMore(states, steps, a);
      hide Run, Enabled, Do, Left, SysOk;
      states', steps' := Drain(states + [Do(q, a)], steps + [a]);
      assert forall k :: |steps| < k < |steps'| ==> !steps'[k].Start? && !steps'[k].Fill?;
      assert steps'[|steps|] == a;
    }
  }

  /** Every run can go on, without new requests, until all requests have returned: then
      every descriptor is free and no buffer has its disk flag set. */
  lemma {:induction false} RequestsCanReturn(states: seq<Sys>, steps: seq<Step>)
      returns (states': seq<Sys>, steps': seq<Step>)
    requires Run(states, steps)
    ensures Drained(states, steps, states', steps')
    ensures var v := states'[|steps'|].v; Sizes(v) && (forall d :: 0 <= d < NUM ==> v.free[d]) && v.busy == {}
  {
    states', steps' := Drain(states, steps);
    RunKeeps(states', steps', |steps'|);
    AllIdle(states'[|steps'|]);
  }
}
