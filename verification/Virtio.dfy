/** kernel/virtio_disk.c: the descriptor table and the two rings it shares with a
    device that completes requests in any order, what each side's moves do to them,
    and the descriptor allocator. */
module Virtio {
  import opened Bytes

  const NUM: nat := 8
  const TWO_16: nat := 0x1_0000
  const IN_PROGRESS: nat := 0xff

  /** What a descriptor points at: a command header, a buffer's data, a status byte. */
  datatype Addr = Null | ToOp(i: nat) | ToData(b: nat) | ToStatus(i: nat)

  datatype Desc = Desc(addr: Addr, next: nat, chained: bool, devWrites: bool)

  datatype Op = Op(write: bool, blockno: nat)

  datatype Info = Info(b: Option<nat>, status: nat)

  /** Where a request is: in entry n of the avail ring, with the device, in entry n
      of the used ring, or handled by the interrupt and not freed yet. Entries are
      counted without wrap-around. */
  datatype Stage = InAvail(n: nat) | AtDevice | InUsed(n: nat) | Handled

  /** A request: how many were made before it, its buffer, what to do, its stage. */
  datatype Req = Req(id: nat, b: nat, op: Op, at: Stage)

  type Reqs = map<nat, Req>

  /** The driver's data structures, with who owns each descriptor, the requests in
      flight by head descriptor, the heads by buffer and by request, and how many
      entries were made available, taken by the device, completed by it, and seen
      by the interrupt handler. */
  datatype View = View(
    free: seq<bool>, desc: seq<Desc>, ops: seq<Op>, info: seq<Info>,
    avail: seq<nat>, used: seq<nat>, busy: set<nat>,
    owner: seq<Option<nat>>, req: Reqs, heads: map<nat, nat>, ids: map<nat, nat>,
    made: nat, taken: nat, done: nat, seen: nat)

  predicate Sizes(v: View) {
    |v.free| == NUM && |v.desc| == NUM && |v.ops| == NUM && |v.info| == NUM && |v.avail| == NUM && |v.used| == NUM
      && |v.owner| == NUM
  }

  /** A descriptor is free, or in the chain of one request. */
  predicate DescAt(v: View, d: nat) {
    d < NUM && Sizes(v) ==>
      && (v.free[d] <==> v.owner[d].None?)
      && (v.owner[d].Some? ==>
            var h := v.owner[d].value;
            h in v.req && h < NUM
                && (d == h || d == v.desc[h].next || (v.desc[h].next < NUM && d == v.desc[v.desc[h].next].next)))
  }

  /** The chain of a request: header, data, status. */
  predicate ChainAt(v: View, h: nat) {
    h in v.req && Sizes(v) ==>
      && h < NUM && v.desc[h].next < NUM && v.desc[v.desc[h].next].next < NUM
      && var i, j := v.desc[h].next, v.desc[v.desc[h].next].next;
      && h != i && h != j && i != j && v.owner[h] == Some(h) && v.owner[i] == Some(h) && v.owner[j] == Some(h)
      && v.desc[h] == Desc(ToOp(h), i, true, false)
      && v.desc[i] == Desc(ToData(v.req[h].b), j, true, !v.ops[h].write) && v.ops[h] == v.req[h].op
      && v.desc[j] == Desc(ToStatus(h), 0, false, true)
  }

  /** The driver's record of a request, and the flag in its buffer. */
  predicate InfoAt(v: View, h: nat) {
    h in v.req && h < NUM && Sizes(v) ==>
      && v.info[h].b == Some(v.req[h].b) && (v.req[h].b in v.busy <==> !v.req[h].at.Handled?)
      && (v.req[h].at.InUsed? || v.req[h].at.Handled? ==> v.info[h].status == 0)
      && v.req[h].b in v.heads && v.heads[v.req[h].b] == h
      && v.req[h].id < v.made && v.req[h].id in v.ids && v.ids[v.req[h].id] == h
  }

  /** A buffer with disk set is that of a request in flight. */
  predicate BufAt(v: View, b: nat) {
    && (b in v.heads ==> v.heads[b] in v.req && v.req[v.heads[b]].b == b)
    && (b in v.busy ==> b in v.heads)
  }

  predicate AvailAt(v: View, n: nat) {
    v.taken <= n < v.made && Sizes(v) ==> v.avail[n % NUM] in v.req && v.req[v.avail[n % NUM]].at == InAvail(n)
  }

  predicate UsedAt(v: View, n: nat) {
    v.seen <= n < v.done && Sizes(v) ==> v.used[n % NUM] in v.req && v.req[v.used[n % NUM]].at == InUsed(n)
  }

  predicate StageAt(v: View, h: nat) {
    h in v.req && Sizes(v) ==>
      && (v.req[h].at.InAvail? ==> v.taken <= v.req[h].at.n < v.made && v.avail[v.req[h].at.n % NUM] == h)
      && (v.req[h].at.InUsed? ==> v.seen <= v.req[h].at.n < v.done && v.used[v.req[h].at.n % NUM] == h)
  }

  predicate AllAt(v: View, x: nat) {
    DescAt(v, x) && ChainAt(v, x) && InfoAt(v, x) && BufAt(v, x) && AvailAt(v, x) && UsedAt(v, x) && StageAt(v, x)
  }

  ghost predicate Ok(v: View) {
    && Sizes(v) && v.seen <= v.done && v.taken <= v.made
    && forall x: nat
         {:trigger AllAt(v, x)} {:trigger DescAt(v, x)} {:trigger ChainAt(v, x)} {:trigger InfoAt(v, x)}
         {:trigger BufAt(v, x)} {:trigger AvailAt(v, x)} {:trigger UsedAt(v, x)} {:trigger StageAt(v, x)} ::
         AllAt(v, x)
  }

  // ----- the rings never overflow -----

  predicate InRing(ring: seq<nat>, S: set<nat>, n: nat) { |ring| == NUM && ring[n % NUM] in S }

  predicate Apart(ring: seq<nat>, n: nat, m: nat) { |ring| == NUM && ring[n % NUM] != ring[m % NUM] }

  /** Different entries that lie in S number at most |S|. */
  lemma {:induction false} RingRoom(ring: seq<nat>, lo: nat, hi: nat, S: set<nat>)
    requires |ring| == NUM && lo <= hi
      && (forall n: nat {:trigger InRing(ring, S, n)} :: lo <= n < hi ==> InRing(ring, S, n))
    requires forall n: nat, m: nat {:trigger Apart(ring, n, m)} :: lo <= n < m < hi ==> Apart(ring, n, m)
    ensures hi - lo <= |S|
    decreases hi - lo
  {
    if lo < hi {
      var last := hi - 1;
      var S' := S - {ring[last % NUM]};
      assert InRing(ring, S, last);
      forall n: nat | lo <= n < last ensures InRing(ring, S', n) {
        assert InRing(ring, S, n) && Apart(ring, n, last);
      }
      RingRoom(ring, lo, last, S');
    }
  }

  lemma {:induction false} AvailRoom(v: View, S: set<nat>)
    requires Ok(v) && forall x :: x in v.req ==> x in S
    ensures v.made - v.taken <= |S|
  {
    forall n: nat | v.taken <= n < v.made ensures InRing(v.avail, S, n) {
      assert AvailAt(v, n);
    }
    forall n: nat, m: nat | v.taken <= n < m < v.made ensures Apart(v.avail, n, m) {
      assert AvailAt(v, n) && AvailAt(v, m);
    }
    RingRoom(v.avail, v.taken, v.made, S);
  }

  lemma {:induction false} UsedRoom(v: View, S: set<nat>)
    requires Ok(v) && forall x :: x in v.req ==> x in S
    ensures v.done - v.seen <= |S|
  {
    forall n: nat | v.seen <= n < v.done ensures InRing(v.used, S, n) {
      assert UsedAt(v, n);
    }
    forall n: nat, m: nat | v.seen <= n < m < v.done ensures Apart(v.used, n, m) {
      assert UsedAt(v, n) && UsedAt(v, m);
    }
    RingRoom(v.used, v.seen, v.done, S);
  }

  /** The numbers below n, leaving one out. */
  function Below(n: nat, out: nat): (r: set<nat>)
    ensures (forall x: nat :: x in r <==> x < n && x != out) && |r| == if out < n then n - 1 else n
  {
    if n == 0 then {} else if n - 1 == out then Below(n - 1, out) else Below(n - 1, out) + {n - 1}
  }

  /** Neither ring ever holds more than NUM entries, and both have a free one as
      long as some descriptor is not the head of a request. */
  lemma {:induction false} RoomInRings(v: View, out: nat, num: nat)
    requires Ok(v) && num == NUM && out !in v.req
    ensures v.made - v.taken <= NUM && v.done - v.seen <= NUM
    ensures out < NUM ==> v.made - v.taken < NUM && v.done - v.seen < NUM
  {
    var S := Below(num, out);
    forall x | x in v.req ensures x in S {
      if x >= 0 { assert ChainAt(v, x); }
    }
    AvailRoom(v, S);
    UsedRoom(v, S);
  }

  lemma {:induction false} RingsFit(v: View)
    requires Ok(v)
    ensures v.made - v.taken <= NUM && v.done - v.seen <= NUM
  {
    assert ChainAt(v, NUM);
    RoomInRings(v, NUM, NUM);
  }

  /** A request that is with the device is in neither ring; its descriptors besides
      the head head no request. */
  lemma {:induction false} SecondIsNoHead(v: View, h: nat)
    requires Ok(v) && h in v.req
    ensures h < NUM && v.desc[h].next < NUM && v.desc[h].next !in v.req
  {
    assert ChainAt(v, h) && ChainAt(v, v.desc[h].next);
  }

  // ----- the moves -----

  const NO_DESC: Desc := Desc(Null, 0, false, false)

  function Three<T>(s: seq<T>, h: nat, x: T, i: nat, y: T, j: nat, z: T): (r: seq<T>)
    requires h < |s| && i < |s| && j < |s|
    ensures |r| == |s|
  {
    s[h := x][i := y][j := z]
  }

  predicate Distinct3(h: nat, i: nat, j: nat) { h < NUM && i < NUM && j < NUM && h != i && h != j && i != j }

  /** virtio_disk_rw up to the notification of the device; slot is the entry of the
      avail ring it fills. */
  function Started(v: View, h: nat, i: nat, j: nat, b: nat, op: Op, slot: nat): (r: View)
    requires Sizes(v) && Distinct3(h, i, j) && slot < NUM
  {
    v.(free := Three(v.free, h, false, i, false, j, false),
       desc := Three(v.desc, h, Desc(ToOp(h), i, true, false), i, Desc(ToData(b), j, true, !op.write),
                     j, Desc(ToStatus(h), 0, false, true)),
       ops := v.ops[h := op], info := v.info[h := Info(Some(b), IN_PROGRESS)],
       avail := v.avail[slot := h], busy := v.busy + {b},
       owner := Three(v.owner, h, Some(h), i, Some(h), j, Some(h)),
       req := v.req[h := Req(v.made, b, op, InAvail(v.made))], heads := v.heads[b := h], ids := v.ids[v.made := h],
           made := v.made + 1)
  }

  lemma {:induction false} ModApart(n: nat, m: nat)
    requires n < m < n + NUM
    ensures n % NUM != m % NUM
  {
  }

  lemma {:induction false} StartDescs(v: View, h: nat, i: nat, j: nat, b: nat, op: Op, d: nat)
    requires Ok(v) && Distinct3(h, i, j) && v.free[h] && v.free[i] && v.free[j]
    ensures h !in v.req && DescAt(Started(v, h, i, j, b, op, v.made % NUM), d)
  {
    hide InfoAt, BufAt, AvailAt, UsedAt, StageAt;
    assert DescAt(v, h) && DescAt(v, i) && DescAt(v, j) && ChainAt(v, h) && DescAt(v, d);
    var v' := Started(v, h, i, j, b, op, v.made % NUM);
    if d < NUM && d != h && d != i && d != j && v.owner[d].Some? {
      var g := v.owner[d].value;
      assert ChainAt(v, g) && v'.desc[g] == v.desc[g] && v'.desc[v.desc[g].next] == v.desc[v.desc[g].next];
    } else if d == h || d == i || d == j {
      assert v'.owner[d] == Some(h) && v'.desc[h].next == i && v'.desc[i].next == j;
    }
  }

  lemma {:induction false} StartChains(v: View, h: nat, i: nat, j: nat, b: nat, op: Op, g: nat)
    requires Ok(v) && Distinct3(h, i, j) && v.free[h] && v.free[i] && v.free[j]
    ensures ChainAt(Started(v, h, i, j, b, op, v.made % NUM), g)
  {
    hide InfoAt, BufAt, AvailAt, UsedAt, StageAt;
    assert DescAt(v, h) && DescAt(v, i) && DescAt(v, j) && ChainAt(v, g);
  }

  lemma {:induction false} StartOk(v: View, h: nat, i: nat, j: nat, b: nat, op: Op)
    requires Ok(v) && Distinct3(h, i, j) && v.free[h] && v.free[i] && v.free[j] && b !in v.heads
    ensures Ok(Started(v, h, i, j, b, op, v.made % NUM))
  {
    var v' := Started(v, h, i, j, b, op, v.made % NUM);
    assert BufAt(v, b);
    StartDescs(v, h, i, j, b, op, 0);
    RoomInRings(v, h, NUM);
    forall d: nat ensures DescAt(v', d) && ChainAt(v', d) {
      StartDescs(v, h, i, j, b, op, d);
      StartChains(v, h, i, j, b, op, d);
    }
    forall g: nat ensures InfoAt(v', g) {
      assert InfoAt(v, g);
    }
    forall c: nat ensures BufAt(v', c) {
      assert BufAt(v, c);
      if c in v.heads { assert ChainAt(v, v.heads[c]); }
    }
    StartRings(v, h, i, j, b, op);
    forall x: nat ensures AllAt(v', x) {
    }
  }

  lemma {:induction false} StartRings(v: View, h: nat, i: nat, j: nat, b: nat, op: Op)
    requires Ok(v) && Distinct3(h, i, j) && h !in v.req && v.made - v.taken < NUM
    ensures var v' := Started(v, h, i, j, b, op, v.made % NUM);
      (forall n: nat {:trigger AvailAt(v', n)} :: AvailAt(v', n))
        && (forall n: nat {:trigger UsedAt(v', n)} :: UsedAt(v', n))
        && (forall g: nat {:trigger StageAt(v', g)} :: StageAt(v', g))
  {
    var v' := Started(v, h, i, j, b, op, v.made % NUM);
    forall n: nat ensures AvailAt(v', n) && UsedAt(v', n) {
      assert AvailAt(v, n) && UsedAt(v, n);
      if v.taken <= n < v.made { ModApart(n, v.made); }
    }
    forall g: nat ensures StageAt(v', g) {
      assert StageAt(v, g);
      if g in v.req && v.req[g].at.InAvail? { ModApart(v.req[g].at.n, v.made); }
    }
  }

  /** The device takes request h from the avail ring. */
  function Taken(v: View, h: nat): (r: View)
    requires h in v.req
  {
    v.(req := v.req[h := v.req[h].(at := AtDevice)], taken := v.taken + 1)
  }

  /** The device completes request h: it writes the status st and fills an entry of
      the used ring. */
  function Completed(v: View, h: nat, st: nat, slot: nat): (r: View)
    requires Sizes(v) && h in v.req && st < NUM && slot < NUM
  {
    v.(info := v.info[st := v.info[st].(status := 0)], used := v.used[slot := h],
       req := v.req[h := v.req[h].(at := InUsed(v.done))], done := v.done + 1)
  }

  /** The interrupt handler deals with request h, whose record names buffer b. */
  function Seen(v: View, h: nat, b: nat): (r: View)
    requires h in v.req
  {
    v.(req := v.req[h := v.req[h].(at := Handled)], busy := v.busy - {b}, seen := v.seen + 1)
  }

  /** virtio_disk_rw after the wait: forget the buffer and free the chain. */
  function Returned(v: View, h: nat, i: nat, j: nat): (r: View)
    requires Sizes(v) && Distinct3(h, i, j) && h in v.req
  {
    v.(free := Three(v.free, h, true, i, true, j, true), desc := Three(v.desc, h, NO_DESC, i, NO_DESC, j, NO_DESC),
       info := v.info[h := v.info[h].(b := None)], owner := Three(v.owner, h, None, i, None, j, None),
       req := v.req - {h}, heads := v.heads - {v.req[h].b})
  }

  lemma {:induction false} TakeOk(v: View)
    requires Ok(v) && v.taken < v.made
    ensures v.avail[v.taken % NUM] in v.req && v.req[v.avail[v.taken % NUM]].at == InAvail(v.taken)
      && Ok(Taken(v, v.avail[v.taken % NUM]))
  {
    assert AvailAt(v, v.taken);
    var h := v.avail[v.taken % NUM];
    var v' := Taken(v, h);
    forall d: nat ensures DescAt(v', d) { assert DescAt(v, d); }
    forall g: nat ensures ChainAt(v', g) && InfoAt(v', g) && StageAt(v', g) && BufAt(v', g) {
      assert ChainAt(v, g) && InfoAt(v, g) && StageAt(v, g) && BufAt(v, g);
    }
    forall n: nat ensures AvailAt(v', n) && UsedAt(v', n) {
      assert AvailAt(v, n) && UsedAt(v, n);
    }
    forall x: nat ensures AllAt(v', x) {
    }
  }

  lemma {:induction false} CompleteOk(v: View, h: nat)
    requires Ok(v) && h in v.req && v.req[h].at.AtDevice?
    ensures h < NUM && Ok(Completed(v, h, h, v.done % NUM))
  {
    SecondIsNoHead(v, h);
    RoomInRings(v, v.desc[h].next, NUM);
    var v' := Completed(v, h, h, v.done % NUM);
    forall d: nat ensures DescAt(v', d) { assert DescAt(v, d); }
    forall g: nat ensures ChainAt(v', g) && InfoAt(v', g) && StageAt(v', g) && BufAt(v', g) {
      assert ChainAt(v, g) && InfoAt(v, g) && StageAt(v, g) && BufAt(v, g);
      if g in v.req && v.req[g].at.InUsed? { ModApart(v.req[g].at.n, v.done); }
    }
    forall n: nat ensures AvailAt(v', n) && UsedAt(v', n) {
      assert AvailAt(v, n) && UsedAt(v, n);
      if v.seen <= n < v.done { ModApart(n, v.done); }
    }
    forall x: nat ensures AllAt(v', x) {
    }
  }

  lemma {:induction false} SeeOk(v: View)
    requires Ok(v) && v.seen < v.done
    ensures v.used[v.seen % NUM] in v.req && Ok(Seen(v, v.used[v.seen % NUM], v.req[v.used[v.seen % NUM]].b))
    ensures var h := v.used[v.seen % NUM];
      h < NUM && v.info[h] == Info(Some(v.req[h].b), 0) && v.req[h].b in v.busy && v.req[h].at == InUsed(v.seen)
  {
    assert UsedAt(v, v.seen);
    var h := v.used[v.seen % NUM];
    var v' := Seen(v, h, v.req[h].b);
    assert ChainAt(v, h) && InfoAt(v, h);
    forall d: nat ensures DescAt(v', d) { assert DescAt(v, d); }
    forall g: nat ensures ChainAt(v', g) && InfoAt(v', g) && StageAt(v', g) && BufAt(v', g) {
      assert ChainAt(v, g) && InfoAt(v, g) && StageAt(v, g) && BufAt(v, g);
    }
    forall n: nat ensures AvailAt(v', n) && UsedAt(v', n) {
      assert AvailAt(v, n) && UsedAt(v, n);
    }
    forall x: nat ensures AllAt(v', x) {
    }
  }

  lemma {:induction false} ReturnDescs(v: View, h: nat, i: nat, j: nat, d: nat)
    requires Ok(v) && h in v.req && h < NUM && i == v.desc[h].next && i < NUM && j == v.desc[i].next
      && Distinct3(h, i, j)
    ensures DescAt(Returned(v, h, i, j), d) && ChainAt(Returned(v, h, i, j), d)
  {
    hide InfoAt, BufAt, AvailAt, UsedAt, StageAt;
    assert ChainAt(v, h) && DescAt(v, d) && ChainAt(v, d);
    if d < NUM && v.owner[d].Some? { assert ChainAt(v, v.owner[d].value); }
  }

  lemma {:induction false} ReturnOk(v: View, h: nat, i: nat, j: nat)
    requires Ok(v) && h in v.req && v.req[h].at.Handled? && h < NUM && i == v.desc[h].next && i < NUM
      && j == v.desc[i].next
    ensures Distinct3(h, i, j) && !v.free[h] && !v.free[i] && !v.free[j] && Ok(Returned(v, h, i, j))
  {
    assert ChainAt(v, h) && InfoAt(v, h) && DescAt(v, h) && DescAt(v, i) && DescAt(v, j);
    var v' := Returned(v, h, i, j);
    forall d: nat ensures DescAt(v', d) && ChainAt(v', d) {
      ReturnDescs(v, h, i, j, d);
    }
    forall g: nat ensures InfoAt(v', g) && StageAt(v', g) && BufAt(v', g) {
      assert InfoAt(v, g) && StageAt(v, g) && BufAt(v, g);
    }
    forall n: nat ensures AvailAt(v', n) && UsedAt(v', n) {
      assert AvailAt(v, n) && UsedAt(v, n);
    }
    forall x: nat ensures AllAt(v', x) {
    }
  }

  // ----- the descriptor allocator -----

  /** disk.free and disk.desc, under vdisk_lock. */
  class Descs {
    var free: seq<bool>
    var desc: seq<Desc>

    /** alloc_desc(): the first free descriptor. */
    method AllocDesc() returns (r: Option<nat>)
      requires |free| == NUM
      modifies `free
      ensures |free| == NUM
      ensures r.Some? ==>
        r.value < NUM && old(free)[r.value] && free == old(free)[r.value := false]
      ensures r.Some? ==> forall k :: 0 <= k < r.value ==> !old(free)[k]
      ensures r.None? ==> free == old(free) && forall k :: 0 <= k < NUM ==> !free[k]
    {
      var i := 0;
      while i < NUM
        invariant i <= NUM && free == old(free) && forall k :: 0 <= k < i ==> !free[k]
      {
        if free[i] {
          free := free[i := false];
          return Some(i);
        }
        i := i + 1;
      }
      return None;
    }

    /** free_desc(): false where it panics. */
    method FreeDesc(i: nat) returns (ok: bool)
      requires |free| == NUM && |desc| == NUM
      modifies `free, `desc
      ensures |free| == NUM && |desc| == NUM && (ok <==> i < NUM && !old(free)[i])
      ensures ok ==> free == old(free)[i := true] && desc == old(desc)[i := NO_DESC]
    {
      if i >= NUM {
        return false;
      }
      if free[i] {
        return false;
      }
      desc := desc[i := NO_DESC];
      free := free[i := true];
      return true;
    }

    /** alloc3_desc(): three different free descriptors, or the free list is as it
        was and holds fewer than three. */
    method Alloc3Desc() returns (r: Option<(nat, nat, nat)>)
      requires |free| == NUM && |desc| == NUM
      modifies `free, `desc
      ensures |free| == NUM && |desc| == NUM && forall d :: 0 <= d < NUM && !old(free)[d] ==> desc[d] == old(desc)[d]
      ensures r.Some? ==> var (h, i, j) := r.value;
        Distinct3(h, i, j) && old(free)[h] && old(free)[i] && old(free)[j]
          && free == Three(old(free), h, false, i, false, j, false) && desc == old(desc)
      ensures r.None? ==> free == old(free) && forall h: nat, i: nat, j: nat :: Distinct3(h, i, j) ==>
        !(free[h] && free[i] && free[j])
    {
      var a := AllocDesc();
      if a.None? {
        return None;
      }
      var b := AllocDesc();
      if b.None? {
        var ok := FreeDesc(a.value);
        assert free == old(free);
        return None;
      }
      var c := AllocDesc();
      if c.None? {
        var ok := FreeDesc(a.value);
        ok := FreeDesc(b.value);
        assert free == old(free);
        return None;
      }
      return Some((a.value, b.value, c.value));
    }

    /** free_chain() for a chain of three. */
    method FreeChain(h: nat, ghost i: nat, ghost j: nat)
      requires |free| == NUM && |desc| == NUM && Distinct3(h, i, j) && !free[h] && !free[i] && !free[j]
      requires desc[h].next == i && desc[h].chained && desc[i].next == j && desc[i].chained && !desc[j].chained
      modifies `free, `desc
      ensures free == Three(old(free), h, true, i, true, j, true)
        && desc == Three(old(desc), h, NO_DESC, i, NO_DESC, j, NO_DESC)
    {
      var k, more := h, true;
      ghost var n := 0;
      while more
        invariant n <= 3 && |free| == NUM && |desc| == NUM && (more <==> n < 3)
        invariant n == 0 ==> k == h && free == old(free) && desc == old(desc)
        invariant n == 1 ==> k == i && free == old(free)[h := true] && desc == old(desc)[h := NO_DESC]
        invariant n == 2 ==>
          k == j && free == old(free)[h := true][i := true] && desc == old(desc)[h := NO_DESC][i := NO_DESC]
        invariant n == 3 ==>
          && free == Three(old(free), h, true, i, true, j, true)
          && desc == Three(old(desc), h, NO_DESC, i, NO_DESC, j, NO_DESC)
        decreases 3 - n
      {
        var flag, nxt := desc[k].chained, desc[k].next;
        var ok := FreeDesc(k);
        assert ok;
        if flag {
          k := nxt;
        } else {
          more := false;
        }
        n := n + 1;
      }
    }
  }

  /** The ring index is the same with and without wrap-around. */
  lemma {:induction false} IndexWraps(n: nat)
    ensures n % TWO_16 % NUM == n % NUM && (n % TWO_16 + 1) % TWO_16 == (n + 1) % TWO_16
  {
    assert TWO_16 == 8192 * NUM;
  }

  /** Comparing 16-bit indices compares the true counts, as they are close. */
  lemma {:induction false} IndexEqual(a: nat, b: nat)
    requires a <= b <= a + NUM
    ensures a % TWO_16 == b % TWO_16 <==> a == b
  {
  }
}
