/** kernel/bio.c: the buffer list as it is linked, the reference counts, and
    least-recently-released recycling. Buffers are numbered by their place in
    bcache.buf, and the list head is one more node. Sleep locks and block
    contents belong to the log machine. */
module Bcache {
  import opened Bytes

  datatype Meta = Meta(dev: nat, blockno: nat, valid: bool, refcnt: int)

  function Succ(i: nat, n: nat): (j: nat)
    requires i < n
    ensures j < n
  {
    if i + 1 == n then 0 else i + 1
  }

  function Pred(i: nat, n: nat): (j: nat)
    requires i < n
    ensures j < n
  {
    if i == 0 then n - 1 else i - 1
  }

  /** The i-th node of the cycle ring: node x stands at place at[x], and the
      links lead to its neighbours. */
  predicate NodeOk(ring: seq<nat>, at: seq<nat>, next: seq<nat>, prev: seq<nat>, i: nat) {
    i < |ring| ==>
      && ring[i] < |at| == |next| == |prev|
      && at[ring[i]] == i
      && next[ring[i]] == ring[Succ(i, |ring|)]
      && prev[ring[i]] == ring[Pred(i, |ring|)]
  }

  /** ring is a doubly linked cycle of distinct nodes, starting at the head, node 0. */
  ghost predicate Cycle(ring: seq<nat>, at: seq<nat>, next: seq<nat>, prev: seq<nat>) {
    && |ring| >= 1 && ring[0] == 0 && |at| == |next| == |prev|
    && forall i: nat {:trigger NodeOk(ring, at, next, prev, i)} :: NodeOk(ring, at, next, prev, i)
  }

  /** ring goes through exactly the nodes 0 to m. */
  ghost predicate Through(ring: seq<nat>, at: seq<nat>, m: nat) {
    && |ring| == m + 1 && m < |at|
    && forall x: nat {:trigger InRing(ring, at, x)} :: x <= m ==> InRing(ring, at, x)
  }

  predicate InRing(ring: seq<nat>, at: seq<nat>, x: nat) {
    x < |at| && at[x] < |ring| && ring[at[x]] == x
  }

  /** ring without its k-th node. */
  function Without(ring: seq<nat>, k: nat): (r: seq<nat>)
    requires k < |ring|
    ensures |r| == |ring| - 1
    ensures forall i: nat :: i < |r| ==> r[i] == ring[if i < k then i else i + 1]
  {
    ring[..k] + ring[k + 1..]
  }

  /** ring with node b right after the head. */
  function Front(ring: seq<nat>, b: nat): (r: seq<nat>)
    requires |ring| >= 1
    ensures |r| == |ring| + 1
    ensures forall i: nat :: i < |r| ==> r[i] == if i == 0 then ring[0] else if i == 1 then b else ring[i - 1]
  {
    [ring[0], b] + ring[1..]
  }

  /** Places after the k-th node leaves. */
  function Closed(at: seq<nat>, k: nat): (r: seq<nat>)
    ensures |r| == |at|
  {
    seq(|at|, x requires 0 <= x < |at| => if at[x] > k then at[x] - 1 else at[x])
  }

  /** Places after node b enters at the front. */
  function Opened(at: seq<nat>, b: nat): (r: seq<nat>)
    ensures |r| == |at|
  {
    seq(|at|, x requires 0 <= x < |at| => if x == b then 1 else if at[x] > 0 then at[x] + 1 else at[x])
  }

  /** brelse: b->next->prev = b->prev and b->prev->next = b->next. */
  lemma {:induction false} UnlinkKeepsCycle(ring: seq<nat>, at: seq<nat>, next: seq<nat>, prev: seq<nat>, k: nat)
    requires Cycle(ring, at, next, prev) && 0 < k < |ring|
    ensures var b := ring[k];
      && b < |next| && next[b] < |prev| && prev[b] < |next|
      && Cycle(Without(ring, k), Closed(at, k), next[prev[b] := next[b]], prev[next[b] := prev[b]])
  {
    var b, n, r, at' := ring[k], |ring|, Without(ring, k), Closed(at, k);
    assert NodeOk(ring, at, next, prev, k) && NodeOk(ring, at, next, prev, Succ(k, n))
      && NodeOk(ring, at, next, prev, Pred(k, n));
    var next', prev' := next[prev[b] := next[b]], prev[next[b] := prev[b]];
    forall i: nat ensures NodeOk(r, at', next', prev', i) {
      if i < |r| {
        var j := if i < k then i else i + 1;
        assert NodeOk(ring, at, next, prev, j);
      }
    }
  }

  /** binit and brelse: link b between the head and the first node. */
  lemma {:induction false} FrontKeepsCycle(ring: seq<nat>, at: seq<nat>, next: seq<nat>, prev: seq<nat>, b: nat)
    requires Cycle(ring, at, next, prev) && b < |next| && b !in ring
    ensures |next| == |prev| && next[0] < |prev| && b != 0
    ensures Cycle(Front(ring, b), Opened(at, b), next[b := next[0]][0 := b], prev[b := 0][next[0] := b])
  {
    var n, r, at' := |ring|, Front(ring, b), Opened(at, b);
    assert NodeOk(ring, at, next, prev, 0) && NodeOk(ring, at, next, prev, Succ(0, n));
    var next', prev' := next[b := next[0]][0 := b], prev[b := 0][next[0] := b];
    forall i: nat ensures NodeOk(r, at', next', prev', i) {
      if i < |r| && i != 1 {
        var j := if i == 0 then 0 else i - 1;
        assert ring[j] != b;
        assert NodeOk(ring, at, next, prev, j);
      }
    }
  }

  // ----- which nodes are linked, and in what order -----

  /** The list is ordered by release time, latest first. */
  ghost predicate Ordered(at: seq<nat>, stamp: seq<nat>, now: nat, m: nat) {
    && m < |at| == |stamp|
    && forall x, y {:trigger Later(at, stamp, now, x, y)} :: 1 <= x <= m && 1 <= y <= m ==> Later(at, stamp, now, x, y)
  }

  predicate Later(at: seq<nat>, stamp: seq<nat>, now: nat, x: nat, y: nat) {
    && x < |at| && y < |at| && |at| == |stamp|
    && stamp[x] < now
    && (at[x] < at[y] ==> stamp[x] > stamp[y])
  }

  /** At most one buffer per block of a real device. */
  ghost predicate Unique(meta: seq<Meta>, m: nat) {
    m < |meta| && forall x, y :: 1 <= x < y <= m && meta[x].dev == meta[y].dev != 0 ==>
      meta[x].blockno != meta[y].blockno
  }

  lemma {:induction false} MoveThrough(ring: seq<nat>, at: seq<nat>, next: seq<nat>, prev: seq<nat>, m: nat, b: nat)
    requires Cycle(ring, at, next, prev) && Through(ring, at, m) && 1 <= b <= m
    ensures 0 < at[b] < |ring| && ring[at[b]] == b && b !in Without(ring, at[b])
    ensures Through(Front(Without(ring, at[b]), b), Opened(Closed(at, at[b]), b), m)
  {
    var k := at[b];
    assert InRing(ring, at, b);
    var r, f, at' := Without(ring, k), Front(Without(ring, k), b), Opened(Closed(at, k), b);
    forall i | 0 <= i < |r| ensures r[i] != b {
      assert NodeOk(ring, at, next, prev, if i < k then i else i + 1);
    }
    forall x: nat | x <= m ensures InRing(f, at', x) {
      assert InRing(ring, at, x) && InRing(ring, at, 0) && NodeOk(ring, at, next, prev, 0);
    }
  }

  lemma {:induction false} MoveOrdered(ring: seq<nat>, at: seq<nat>, stamp: seq<nat>, now: nat, m: nat, b: nat)
    requires Through(ring, at, m) && ring[0] == 0 && Ordered(at, stamp, now, m) && 1 <= b <= m
    ensures Ordered(Opened(Closed(at, at[b]), b), stamp[b := now], now + 1, m)
  {
    var at', stamp', now' := Opened(Closed(at, at[b]), b), stamp[b := now], now + 1;
    forall x, y | 1 <= x <= m && 1 <= y <= m ensures Later(at', stamp', now', x, y) {
      assert Later(at, stamp, now, x, y) && Later(at, stamp, now, y, x) && InRing(ring, at, x) && InRing(ring, at, y)
        && InRing(ring, at, b);
    }
  }

  lemma {:induction false} InsertThrough(ring: seq<nat>, at: seq<nat>, next: seq<nat>, prev: seq<nat>, b: nat)
    requires 0 < b < |at| && Cycle(ring, at, next, prev) && Through(ring, at, b - 1)
    requires forall x :: x in ring ==> x < b
    ensures Through(Front(ring, b), Opened(at, b), b)
    ensures forall x :: x in Front(ring, b) ==> x <= b
  {
    forall x: nat | x <= b ensures InRing(Front(ring, b), Opened(at, b), x) {
      assert x < b ==> InRing(ring, at, x);
      assert InRing(ring, at, 0) && NodeOk(ring, at, next, prev, 0);
    }
    assert forall x :: x in ring[1..] ==> x in ring;
  }

  lemma {:induction false} InsertOrdered(ring: seq<nat>, at: seq<nat>, stamp: seq<nat>, now: nat, b: nat)
    requires 0 < b < |at| && Through(ring, at, b - 1) && ring[0] == 0 && Ordered(at, stamp, now, b - 1)
    ensures Ordered(Opened(at, b), stamp[b := now], now + 1, b)
  {
    var at', stamp', now' := Opened(at, b), stamp[b := now], now + 1;
    forall x, y | 1 <= x <= b && 1 <= y <= b ensures Later(at', stamp', now', x, y) {
      assert x < b ==> InRing(ring, at, x) && Later(at, stamp, now, x, x);
      assert y < b ==> InRing(ring, at, y) && Later(at, stamp, now, y, y);
      assert x < b && y < b ==> Later(at, stamp, now, x, y);
    }
  }

  class Bcache {
    /** number of buffers; they are nodes 1 to n, and node 0 is bcache.head */
    const n: nat
    var meta: seq<Meta>
    var next: seq<nat>
    var prev: seq<nat>
    /** the cycle, from the head to the least recently released buffer */
    ghost var ring: seq<nat>
    ghost var at: seq<nat>
    /** when brelse last took each buffer to reference count 0, or binit linked it */
    ghost var stamp: seq<nat>
    ghost var now: nat

    ghost predicate Valid()
      reads this
    {
      && |at| == |next| == n + 1
      && Cycle(ring, at, next, prev) && Through(ring, at, n) && Ordered(at, stamp, now, n)
      && |meta| == n + 1 && Unique(meta, n)
    }

    /** The four assignments that link b between the head and the first buffer. */
    method LinkFront(b: nat)
      requires b < |next| == |prev| && b != 0 && next[0] < |prev|
      modifies `next, `prev
      ensures next == old(next)[b := old(next)[0]][0 := b]
      ensures prev == old(prev)[b := 0][old(next)[0] := b]
    {
      next := next[b := next[0]];
      prev := prev[b := 0];
      prev := prev[next[0] := b];
      next := next[0 := b];
    }

    /** binit: link the buffers one by one, each at the front. */
    constructor (n: nat)
      ensures this.n == n && Valid()
      ensures meta == seq(n + 1, _ => Meta(0, 0, false, 0))
    {
      this.n := n;
      meta := seq(n + 1, _ => Meta(0, 0, false, 0));
      next, prev := seq(n + 1, _ => 0), seq(n + 1, _ => 0);
      ring, at, stamp, now := [0], seq(n + 1, _ => 0), seq(n + 1, _ => 0), 0;
      new;
      var b := 1;
      while b <= n
        invariant 1 <= b <= n + 1 && |at| == |next| == n + 1 && meta == seq(n + 1, _ => Meta(0, 0, false, 0))
        invariant Cycle(ring, at, next, prev) && Through(ring, at, b - 1) && Ordered(at, stamp, now, b - 1)
        invariant forall x :: x in ring ==> x < b
      {
        InsertThrough(ring, at, next, prev, b);
        InsertOrdered(ring, at, stamp, now, b);
        FrontKeepsCycle(ring, at, next, prev, b);
        LinkFront(b);
        ring, at, stamp, now := Front(ring, b), Opened(at, b), stamp[b := now], now + 1;
        b := b + 1;
      }
    }

    /** bget's first loop, from the most recently released. */
    method FindCached(dev: nat, blockno: nat) returns (r: Option<nat>)
      requires Valid()
      ensures r.Some? ==> 1 <= r.value <= n && meta[r.value].dev == dev && meta[r.value].blockno == blockno
      ensures r.None? ==> forall x :: 1 <= x <= n ==> !(meta[x].dev == dev && meta[x].blockno == blockno)
    {
      assert NodeOk(ring, at, next, prev, 0);
      ghost var k: nat := Succ(0, |ring|);
      var b: nat := next[0];
      while b != 0
        invariant k < |ring| && b == ring[k]
        invariant forall j :: 0 < j < (if k == 0 then |ring| else k) ==>
          ring[j] < |meta| && !(meta[ring[j]].dev == dev && meta[ring[j]].blockno == blockno)
        decreases if k == 0 then 0 else |ring| - k
      {
        assert NodeOk(ring, at, next, prev, k);
        if meta[b].dev == dev && meta[b].blockno == blockno {
          return Some(b);
        }
        b := next[b];
        k := Succ(k, |ring|);
      }
      assert NodeOk(ring, at, next, prev, k);
      forall x | 1 <= x <= n ensures !(meta[x].dev == dev && meta[x].blockno == blockno) {
        assert InRing(ring, at, x);
      }
      return None;
    }

    /** bget's second loop, from the least recently released: it stops at the
        unreferenced buffer whose last release is oldest. */
    method FindVictim() returns (r: Option<nat>)
      requires Valid()
      ensures r.Some? ==> 1 <= r.value <= n && meta[r.value].refcnt == 0
      ensures r.Some? ==> forall x :: 1 <= x <= n && meta[x].refcnt == 0 && x != r.value ==> stamp[r.value] < stamp[x]
      ensures r.None? ==> forall x :: 1 <= x <= n ==> meta[x].refcnt != 0
    {
      assert NodeOk(ring, at, next, prev, 0);
      ghost var k: nat := Pred(0, |ring|);
      var b: nat := prev[0];
      while b != 0
        invariant k < |ring| && b == ring[k]
        invariant forall j :: k < j < |ring| ==> ring[j] < |meta| && meta[ring[j]].refcnt != 0
        decreases k
      {
        assert NodeOk(ring, at, next, prev, k);
        if meta[b].refcnt == 0 {
          forall x | 1 <= x <= n && meta[x].refcnt == 0 && x != b ensures stamp[b] < stamp[x] {
            assert InRing(ring, at, x) && Later(at, stamp, now, x, b);
          }
          return Some(b);
        }
        b := prev[b];
        k := Pred(k, |ring|);
      }
      assert NodeOk(ring, at, next, prev, k);
      forall x | 1 <= x <= n ensures meta[x].refcnt != 0 {
        assert InRing(ring, at, x);
      }
      return None;
    }

    ghost predicate Cached(dev: nat, blockno: nat)
      reads this
    {
      exists x :: 1 <= x <= n && x < |meta| && meta[x].dev == dev && meta[x].blockno == blockno
    }

    /** The lookup and recycling part of bget; None is the panic "bget: no buffers". */
    method Bget(dev: nat, blockno: nat) returns (r: Option<nat>)
      requires Valid()
      modifies `meta
      ensures Valid()
      ensures r.Some? ==> 1 <= r.value <= n && meta == old(meta)[r.value := meta[r.value]]
      ensures r.Some? ==> meta[r.value].dev == dev && meta[r.value].blockno == blockno
      // a cached block: the same buffer, with one more reference
      ensures old(Cached(dev, blockno)) ==>
        r.Some? && meta[r.value] == old(meta)[r.value].(refcnt := old(meta)[r.value].refcnt + 1)
      // otherwise: the unreferenced buffer released longest ago, invalid, with one reference
      ensures !old(Cached(dev, blockno)) && r.Some? ==>
        && old(meta)[r.value].refcnt == 0 && meta[r.value].refcnt == 1 && !meta[r.value].valid
        && forall x :: 1 <= x <= n && old(meta)[x].refcnt == 0 && x != r.value ==> stamp[r.value] < stamp[x]
      ensures r.None? <==> !old(Cached(dev, blockno)) && forall x :: 1 <= x <= n ==> old(meta)[x].refcnt != 0
      ensures r.None? ==> meta == old(meta)
    {
      r := FindCached(dev, blockno);
      if r.Some? {
        meta := meta[r.value := meta[r.value].(refcnt := meta[r.value].refcnt + 1)];
        return;
      }
      r := FindVictim();
      if r.Some? {
        meta := meta[r.value := Meta(dev, blockno, false, 1)];
      }
    }

    /** The second half of brelse: drop a reference; on the last one move the
        buffer to the front of the list. */
    method Brelse(b: nat)
      requires Valid() && 1 <= b <= n
      modifies this
      ensures Valid()
      ensures meta == old(meta)[b := old(meta)[b].(refcnt := old(meta)[b].refcnt - 1)]
      ensures meta[b].refcnt == 0 ==>
        next[0] == b && stamp == old(stamp)[b := old(now)] && now == old(now) + 1
      ensures meta[b].refcnt != 0 ==> next == old(next) && prev == old(prev) && stamp == old(stamp) && now == old(now)
    {
      meta := meta[b := meta[b].(refcnt := meta[b].refcnt - 1)];
      if meta[b].refcnt == 0 {
        ghost var k := at[b];
        MoveThrough(ring, at, next, prev, n, b);
        MoveOrdered(ring, at, stamp, now, n, b);
        UnlinkKeepsCycle(ring, at, next, prev, k);
        next, prev := next[prev[b] := next[b]], prev[next[b] := prev[b]];
        ring, at := Without(ring, k), Closed(at, k);
        FrontKeepsCycle(ring, at, next, prev, b);
        LinkFront(b);
        ring, at, stamp, now := Front(ring, b), Opened(at, b), stamp[b := now], now + 1;
      }
    }
  }
}
