/** user/umalloc.c: the Kernighan and Ritchie allocator. Addresses and sizes are
    in units of one header. */
module Umalloc {
  import opened Bytes

  const HEADER_BYTES: nat := 16
  const MIN_UNITS: nat := 4096

  datatype Header = Header(ptr: nat, size: nat)

  /** A block of the free list: its header's address and its size. */
  datatype Blk = Blk(addr: nat, size: nat) {
    function End(): (e: nat) { addr + size }
  }

  function Succ(i: nat, n: nat): (j: nat)
    requires i < n
    ensures j < n
  {
    if i + 1 == n then 0 else i + 1
  }

  /** Steps from i forward to j round a cycle of n. */
  function Distance(i: nat, j: nat, n: nat): (d: nat)
    requires i < n && j < n
    ensures d < n
  {
    if i <= j then j - i else n - i + j
  }

  // ----- the free list as a sequence in address order -----

  /** Block i ends strictly before block i+1 begins, so no two are adjacent. */
  predicate GapAfter(fs: seq<Blk>, i: nat) {
    i + 1 < |fs| ==> fs[i].End() < fs[i + 1].addr
  }

  predicate SizeOk(fs: seq<Blk>, i: nat) {
    0 < i < |fs| ==> fs[i].size >= 1
  }

  /** The list starts with the static, empty `base`, and is in address order. */
  ghost predicate Sorted(fs: seq<Blk>) {
    && |fs| >= 1 && fs[0].size == 0
    && (forall i: nat {:trigger GapAfter(fs, i)} :: GapAfter(fs, i))
    && (forall i: nat {:trigger SizeOk(fs, i)} :: SizeOk(fs, i))
  }

  predicate Covers(b: Blk, u: nat) {
    b.addr <= u < b.End()
  }

  /** Unit u lies in some free block. */
  ghost predicate InFree(fs: seq<Blk>, u: nat) {
    exists i: nat :: i < |fs| && Covers(fs[i], u)
  }

  lemma {:induction false} SortedAt(fs: seq<Blk>, i: nat, j: nat)
    requires Sorted(fs) && i < j < |fs|
    ensures fs[i].End() < fs[j].addr
    decreases j
  {
    assert GapAfter(fs, j - 1);
    if i < j - 1 {
      SortedAt(fs, i, j - 1);
    }
  }

  /** Where a block at address a belongs: after block i. */
  predicate Slot(fs: seq<Blk>, a: nat, i: nat) {
    i < |fs| && fs[i].addr < a && (i + 1 < |fs| ==> a < fs[i + 1].addr)
  }

  lemma {:induction false} FindSlot(fs: seq<Blk>, a: nat) returns (i: nat)
    requires Sorted(fs) && fs[0].addr < a && forall k :: 0 <= k < |fs| ==> fs[k].addr != a
    ensures Slot(fs, a, i)
  {
    i := 0;
    while i + 1 < |fs| && fs[i + 1].addr < a
      invariant i < |fs| && fs[i].addr < a
    {
      i := i + 1;
    }
  }

  predicate JoinsRight(fs: seq<Blk>, i: nat, b: Blk) {
    i + 1 < |fs| && b.End() == fs[i + 1].addr
  }

  /** The free list after block b is freed into slot i: merged with the block
      above if they touch, then with the block below if they touch. */
  function Freed(fs: seq<Blk>, i: nat, b: Blk): (r: seq<Blk>)
    requires i < |fs|
  {
    var right := JoinsRight(fs, i, b);
    var m := Blk(b.addr, b.size + if right then fs[i + 1].size else 0);
    var rest := if right then fs[i + 2..] else fs[i + 1..];
    if fs[i].End() == b.addr then fs[..i] + [Blk(fs[i].addr, fs[i].size + m.size)] + rest
    else fs[..i + 1] + [m] + rest
  }

  /** b lies in slot i without overlapping its neighbours. */
  predicate FitsSlot(fs: seq<Blk>, i: nat, b: Blk) {
    && i < |fs| && b.size >= 1
    && fs[i].End() <= b.addr && fs[i].addr < b.addr
    && (i + 1 < |fs| ==> b.End() <= fs[i + 1].addr)
  }

  /** Freeing keeps the list sorted, with no two adjacent blocks, and adds exactly b's units. */
  lemma {:induction false} FreedSorted(fs: seq<Blk>, i: nat, b: Blk)
    requires Sorted(fs) && FitsSlot(fs, i, b)
    ensures Sorted(Freed(fs, i, b)) && Freed(fs, i, b)[0] == fs[0]
  {
    var r := Freed(fs, i, b);
    var right, left := JoinsRight(fs, i, b), fs[i].End() == b.addr;
    forall k: nat ensures GapAfter(r, k) && SizeOk(r, k) {
      var j := if k <= i then k else k + (if right then 1 else 0) - (if left then 0 else 1);
      assert GapAfter(fs, k) && SizeOk(fs, k);
      if j >= 0 { assert GapAfter(fs, j) && SizeOk(fs, j); }
      assert GapAfter(fs, i) && GapAfter(fs, i + 1) && SizeOk(fs, i) && SizeOk(fs, i + 1);
    }
    assert SizeOk(fs, i);
  }

  lemma {:induction false} FreedUnits(fs: seq<Blk>, i: nat, b: Blk, u: nat)
    requires Sorted(fs) && FitsSlot(fs, i, b)
    ensures InFree(Freed(fs, i, b), u) <==> InFree(fs, u) || Covers(b, u)
  {
    var r := Freed(fs, i, b);
    var right, left := JoinsRight(fs, i, b), fs[i].End() == b.addr;
    var at := if left then i else i + 1;
    if InFree(fs, u) {
      var k: nat :| k < |fs| && Covers(fs[k], u);
      var k' := if k < i then k else if k == i then i else if k == i + 1 && right then at
                else k + (if left then 0 else 1) - (if right then 1 else 0);
      assert Covers(r[k'], u);
    }
    if Covers(b, u) {
      assert Covers(r[at], u);
    }
    if InFree(r, u) {
      var k: nat :| k < |r| && Covers(r[k], u);
      if k == at {
        assert Covers(b, u) || (left && Covers(fs[i], u)) || (right && Covers(fs[i + 1], u));
      } else {
        var k' := if k < at then k else k - (if left then 0 else 1) + (if right then 1 else 0);
        assert Covers(fs[k'], u);
      }
    }
  }

  /** Some block of the new list contains all of b. */
  lemma {:induction false} FreedHolds(fs: seq<Blk>, i: nat, b: Blk) returns (m: nat)
    requires Sorted(fs) && FitsSlot(fs, i, b)
    ensures var r := Freed(fs, i, b); m < |r| && r[m].addr <= b.addr && b.End() <= r[m].End()
  {
    m := if fs[i].End() == b.addr then i else i + 1;
  }

  /** The free list after n units are cut from the end of block j. */
  function Taken(fs: seq<Blk>, j: nat, n: nat): (r: seq<Blk>)
    requires j < |fs| && n <= fs[j].size
  {
    if fs[j].size == n then fs[..j] + fs[j + 1..] else fs[j := Blk(fs[j].addr, fs[j].size - n)]
  }

  function Cut(fs: seq<Blk>, j: nat, n: nat): (b: Blk)
    requires j < |fs| && n <= fs[j].size
  {
    Blk(fs[j].End() - n, n)
  }

  lemma {:induction false} TakenSorted(fs: seq<Blk>, j: nat, n: nat)
    requires Sorted(fs) && 0 < j < |fs| && 1 <= n <= fs[j].size
    ensures Sorted(Taken(fs, j, n)) && Taken(fs, j, n)[0] == fs[0]
  {
    var r := Taken(fs, j, n);
    forall k: nat ensures GapAfter(r, k) && SizeOk(r, k) {
      assert GapAfter(fs, k) && SizeOk(fs, k) && GapAfter(fs, k + 1) && SizeOk(fs, k + 1) && GapAfter(fs, j)
        && SizeOk(fs, j);
    }
  }

  /** The units of the list are split between what is cut off and what remains. */
  lemma {:induction false} TakenUnits(fs: seq<Blk>, j: nat, n: nat, u: nat)
    requires Sorted(fs) && 0 < j < |fs| && 1 <= n <= fs[j].size
    ensures InFree(fs, u) <==> InFree(Taken(fs, j, n), u) || Covers(Cut(fs, j, n), u)
    ensures !(InFree(Taken(fs, j, n), u) && Covers(Cut(fs, j, n), u))
  {
    var r, b := Taken(fs, j, n), Cut(fs, j, n);
    if InFree(fs, u) {
      var k: nat :| k < |fs| && Covers(fs[k], u);
      if k != j {
        assert Covers(r[if k > j && fs[j].size == n then k - 1 else k], u);
      } else if !Covers(b, u) {
        assert Covers(r[j], u);
      }
    }
    if Covers(b, u) {
      assert Covers(fs[j], u);
    }
    if InFree(r, u) {
      var k: nat :| k < |r| && Covers(r[k], u);
      var k' := if fs[j].size == n && k >= j then k + 1 else k;
      assert Covers(fs[k'], u);
      if k' < j { SortedAt(fs, k', j); } else if k' > j { SortedAt(fs, j, k'); }
    }
  }

  // ----- headers in memory -----

  /** Block i's header holds its size and the address of the next block, cyclically. */
  predicate LinkOk(fs: seq<Blk>, mem: map<nat, Header>, i: nat) {
    i < |fs| ==> fs[i].addr in mem && mem[fs[i].addr] == Header(fs[Succ(i, |fs|)].addr, fs[i].size)
  }

  ghost predicate Linked(fs: seq<Blk>, mem: map<nat, Header>) {
    forall i: nat {:trigger LinkOk(fs, mem, i)} :: LinkOk(fs, mem, i)
  }

  /** The headers after free()'s two if-statements, for bp inserted after p. */
  function FreedMem(mem: map<nat, Header>, p: nat, bp: nat): (r: map<nat, Header>)
    requires p in mem && bp in mem && mem[p].ptr in mem
  {
    var nxt := mem[p].ptr;
    var m1 := mem[bp := if bp + mem[bp].size == nxt then Header(mem[nxt].ptr, mem[bp].size + mem[nxt].size)
                        else Header(nxt, mem[bp].size)];
    m1[p := if p + m1[p].size == bp then Header(m1[bp].ptr, m1[p].size + m1[bp].size) else Header(bp, m1[p].size)]
  }

  lemma {:induction false} FreedLinked(fs: seq<Blk>, mem: map<nat, Header>, i: nat, b: Blk)
    requires Sorted(fs) && Linked(fs, mem) && FitsSlot(fs, i, b) && fs[0].addr < b.addr
    requires b.addr in mem && mem[b.addr].size == b.size
    ensures fs[i].addr in mem && mem[fs[i].addr].ptr in mem
    ensures Linked(Freed(fs, i, b), FreedMem(mem, fs[i].addr, b.addr))
  {
    var n, r := |fs|, Freed(fs, i, b);
    assert LinkOk(fs, mem, i) && LinkOk(fs, mem, Succ(i, n));
    var mem' := FreedMem(mem, fs[i].addr, b.addr);
    var right, left := JoinsRight(fs, i, b), fs[i].End() == b.addr;
    forall k: nat ensures LinkOk(r, mem', k) {
      if k < |r| {
        var at := if left then i else i + 1;
        var k' := if k <= i then k else k - (if left then 0 else 1) + (if right then 1 else 0);
        if k != at && k != i {
          assert LinkOk(fs, mem, k');
          assert r[k] == fs[k'];
          if k' < i { SortedAt(fs, k', i); } else { SortedAt(fs, i, k'); }
          if k' > i + 1 { SortedAt(fs, i + 1, k'); }
          assert fs[k'].addr != b.addr && mem'[fs[k'].addr] == mem[fs[k'].addr];
          assert r[Succ(k, |r|)].addr == fs[Succ(k', n)].addr;
        } else {
          assert LinkOk(r, mem', k);
        }
      }
    }
  }

  /** The headers after malloc takes n units from block p, whose predecessor is prevp. */
  function TakenMem(mem: map<nat, Header>, prevp: nat, p: nat, n: nat): (r: map<nat, Header>)
    requires p in mem && prevp in mem && n <= mem[p].size
  {
    if mem[p].size == n then mem[prevp := mem[prevp].(ptr := mem[p].ptr)]
    else
      var q := p + (mem[p].size - n);
      mem[p := mem[p].(size := mem[p].size - n)][q := Header(if q in mem then mem[q].ptr else 0, n)]
  }

  lemma {:induction false} TakenLinked(fs: seq<Blk>, mem: map<nat, Header>, j: nat, n: nat)
    requires Sorted(fs) && Linked(fs, mem) && 0 < j < |fs| && 1 <= n <= fs[j].size
    ensures fs[j].addr in mem && fs[j - 1].addr in mem && mem[fs[j].addr].size == fs[j].size
    ensures Linked(Taken(fs, j, n), TakenMem(mem, fs[j - 1].addr, fs[j].addr, n))
  {
    assert LinkOk(fs, mem, j) && LinkOk(fs, mem, j - 1);
    var r, mem' := Taken(fs, j, n), TakenMem(mem, fs[j - 1].addr, fs[j].addr, n);
    SortedAt(fs, j - 1, j);
    forall k: nat ensures LinkOk(r, mem', k) {
      if k < |r| {
        var k' := if fs[j].size == n && k >= j then k + 1 else k;
        assert LinkOk(fs, mem, k') && SizeOk(fs, j);
        if k' < j { SortedAt(fs, k', j); } else if k' > j { SortedAt(fs, j, k'); }
        if k' < j - 1 { SortedAt(fs, k', j - 1); } else if k' > j - 1 { SortedAt(fs, j - 1, k'); }
        assert r[Succ(k, |r|)].addr == if fs[j].size == n
          && k == j - 1 then fs[Succ(j, |fs|)].addr else fs[Succ(k', |fs|)].addr;
      }
    }
  }

  // ----- the whole heap -----

  /** The n units from a on. */
  ghost function Range(a: nat, n: nat): (r: set<nat>)
    ensures forall u: nat :: u in r <==> a <= u < a + n
  {
    if n == 0 then {} else Range(a, n - 1) + {a + n - 1}
  }

  ghost predicate InLive(live: map<nat, nat>, u: nat) {
    exists a :: a in live && Covers(Blk(a, live[a]), u)
  }

  /** Unit u came from sbrk exactly if it is free or allocated, and it is never both. */
  ghost predicate UnitOk(fs: seq<Blk>, live: map<nat, nat>, arena: set<nat>, u: nat) {
    && (u in arena <==> InFree(fs, u) || InLive(live, u))
    && !(InFree(fs, u) && InLive(live, u))
  }

  ghost predicate Partition(fs: seq<Blk>, live: map<nat, nat>, arena: set<nat>) {
    forall u: nat {:trigger UnitOk(fs, live, arena, u)} :: UnitOk(fs, live, arena, u)
  }

  predicate LiveOk(mem: map<nat, Header>, live: map<nat, nat>, a: nat) {
    a in live ==> live[a] >= 1 && a in mem && mem[a].size == live[a]
  }

  predicate Apart(live: map<nat, nat>, a: nat, b: nat) {
    a in live && b in live && a != b ==> a + live[a] <= b || b + live[b] <= a
  }

  ghost predicate AllLive(mem: map<nat, Header>, live: map<nat, nat>) {
    && (forall a: nat {:trigger LiveOk(mem, live, a)} :: LiveOk(mem, live, a))
    && (forall a: nat, b: nat {:trigger Apart(live, a, b)} :: Apart(live, a, b))
  }

  /** An allocated block fits between its neighbours in the free list. */
  lemma {:induction false} LiveFitsSlot(fs: seq<Blk>, mem: map<nat, Header>, live: map<nat, nat>, arena: set<nat>,
      base: nat, a: nat) returns (i: nat)
    requires Sorted(fs) && fs[0] == Blk(base, 0) && Partition(fs, live, arena) && AllLive(mem, live) && a in live
    requires forall u :: u in arena ==> base < u
    ensures Slot(fs, a, i) && FitsSlot(fs, i, Blk(a, live[a])) && base < a
  {
    var b := Blk(a, live[a]);
    assert LiveOk(mem, live, a);
    assert UnitOk(fs, live, arena, a) && Covers(b, a);
    forall k | 0 <= k < |fs| ensures fs[k].addr != a {
      assert SizeOk(fs, k);
      assert !Covers(fs[k], a);
    }
    i := FindSlot(fs, a);
    assert !Covers(fs[i], a);
    if i + 1 < |fs| {
      var u := fs[i + 1].addr;
      assert SizeOk(fs, i + 1) && UnitOk(fs, live, arena, u);
      assert Covers(fs[i + 1], u);
      assert !Covers(b, u);
    }
  }

  lemma {:induction false} FreedPartition(fs: seq<Blk>, mem: map<nat, Header>, live: map<nat, nat>, arena: set<nat>,
      i: nat, a: nat)
    requires Sorted(fs) && Partition(fs, live, arena) && AllLive(mem, live) && a in live
      && FitsSlot(fs, i, Blk(a, live[a]))
    ensures Partition(Freed(fs, i, Blk(a, live[a])), live - {a}, arena)
  {
    var b, r := Blk(a, live[a]), Freed(fs, i, Blk(a, live[a]));
    forall u: nat ensures UnitOk(r, live - {a}, arena, u) {
      assert UnitOk(fs, live, arena, u);
      FreedUnits(fs, i, b, u);
      if InLive(live, u) {
        var c :| c in live && Covers(Blk(c, live[c]), u);
        assert c != a ==> c in live - {a} && (live - {a})[c] == live[c];
      }
      if InLive(live - {a}, u) {
        var c :| c in live - {a} && Covers(Blk(c, (live - {a})[c]), u);
        assert c in live && live[c] == (live - {a})[c] && Apart(live, a, c);
      }
    }
  }

  lemma {:induction false} CutIsApart(fs: seq<Blk>, live: map<nat, nat>, arena: set<nat>, j: nat, n: nat, c: nat)
    requires Sorted(fs) && Partition(fs, live, arena) && 0 < j < |fs| && 1 <= n <= fs[j].size && c in live
      && live[c] >= 1
    ensures var b := Cut(fs, j, n); b.End() <= c || c + live[c] <= b.addr
  {
    var b := Cut(fs, j, n);
    var u := if c < b.addr then b.addr else c;
    assert UnitOk(fs, live, arena, u);
    assert !(Covers(fs[j], u) && Covers(Blk(c, live[c]), u));
  }

  lemma {:induction false} TakenPartition(fs: seq<Blk>, mem: map<nat, Header>, live: map<nat, nat>, arena: set<nat>,
      j: nat, n: nat)
    requires Sorted(fs) && Partition(fs, live, arena) && AllLive(mem, live) && 0 < j < |fs| && 1 <= n <= fs[j].size
    ensures var a := Cut(fs, j, n).addr; a !in live && Partition(Taken(fs, j, n), live[a := n], arena)
  {
    var b := Cut(fs, j, n);
    var a, r := b.addr, Taken(fs, j, n);
    if a in live {
      assert LiveOk(mem, live, a);
      CutIsApart(fs, live, arena, j, n, a);
    }
    var live' := live[a := n];
    forall u: nat ensures UnitOk(r, live', arena, u) {
      assert UnitOk(fs, live, arena, u);
      TakenUnits(fs, j, n, u);
      if InLive(live, u) {
        var c :| c in live && Covers(Blk(c, live[c]), u);
        assert c in live' && Covers(Blk(c, live'[c]), u);
      }
      if Covers(b, u) {
        assert a in live' && Covers(Blk(a, live'[a]), u);
      }
    }
  }

  lemma {:induction false} NotLater(fs: seq<Blk>, gs: seq<Blk>, k: nat)
    requires Sorted(fs) && Sorted(gs) && 0 < k < |fs| && k <= |gs| && fs[..k] == gs[..k]
    requires forall u: nat :: InFree(fs, u) ==> InFree(gs, u)
    ensures k < |gs| && gs[k].addr <= fs[k].addr
  {
    var u := fs[k].addr;
    assert SizeOk(fs, k) && Covers(fs[k], u) && InFree(fs, u);
    var m: nat :| m < |gs| && Covers(gs[m], u);
    if m < k {
      assert gs[m] == gs[..k][m] == fs[m];
      SortedAt(fs, m, k);
    } else if k < m {
      SortedAt(gs, k, m);
    }
  }

  lemma {:induction false} NotLonger(fs: seq<Blk>, gs: seq<Blk>, k: nat)
    requires Sorted(fs) && Sorted(gs) && k < |fs| && k < |gs| && fs[k].addr == gs[k].addr
    requires forall u: nat :: InFree(gs, u) ==> InFree(fs, u)
    ensures gs[k].End() <= fs[k].End()
  {
    if fs[k].End() < gs[k].End() {
      var u := fs[k].End();
      assert Covers(gs[k], u) && InFree(gs, u);
      var m: nat :| m < |fs| && Covers(fs[m], u);
      if m < k { SortedAt(fs, m, k); } else if k < m { SortedAt(fs, k, m); }
    }
  }

  lemma {:induction false} SameBlocks(fs: seq<Blk>, gs: seq<Blk>, k: nat)
    requires Sorted(fs) && Sorted(gs) && fs[0] == gs[0] && 0 < k <= |fs| && k <= |gs| && fs[..k] == gs[..k]
    requires forall u: nat :: InFree(fs, u) <==> InFree(gs, u)
    ensures fs == gs
    decreases |fs| - k
  {
    if k < |fs| {
      NotLater(fs, gs, k);
      NotLater(gs, fs, k);
      NotLonger(fs, gs, k);
      NotLonger(gs, fs, k);
      assert fs[..k + 1] == fs[..k] + [fs[k]] && gs[..k + 1] == gs[..k] + [gs[k]];
      SameBlocks(fs, gs, k + 1);
    } else {
      assert fs[..k] == fs;
      if k < |gs| { NotLater(gs, fs, k); }
      assert gs[..k] == gs;
    }
  }

  /** The free list has no history: what was obtained from sbrk and what is
      allocated determine every block of it. */
  lemma {:induction false} FreeListDetermined(fs: seq<Blk>, gs: seq<Blk>, live: map<nat, nat>, arena: set<nat>)
    requires Sorted(fs) && Sorted(gs) && fs[0] == gs[0]
    requires Partition(fs, live, arena) && Partition(gs, live, arena)
    ensures fs == gs
  {
    forall u: nat ensures InFree(fs, u) <==> InFree(gs, u) {
      assert UnitOk(fs, live, arena, u) && UnitOk(gs, live, arena, u);
    }
    assert fs[..1] == [fs[0]] && gs[..1] == [gs[0]];
    SameBlocks(fs, gs, 1);
  }

  /** Freeing what was just cut off restores the list. */
  lemma {:induction false} FreeUndoesTake(fs: seq<Blk>, j: nat, n: nat)
    requires Sorted(fs) && 0 < j < |fs| && 1 <= n <= fs[j].size
    ensures var r, b, i := Taken(fs, j, n), Cut(fs, j, n), if fs[j].size == n then j - 1 else j;
      FitsSlot(r, i, b) && Freed(r, i, b) == fs
  {
    assert GapAfter(fs, j - 1) && GapAfter(fs, j);
    var r, b := Taken(fs, j, n), Cut(fs, j, n);
    if fs[j].size == n {
      assert r[..j] == fs[..j] && r[j..] == fs[j + 1..] && b == fs[j];
    } else {
      assert r[..j] == fs[..j] && r[j + 1..] == fs[j + 1..];
    }
  }

  /** Headers of allocated blocks are not headers of free blocks. */
  lemma {:induction false} LiveIsNotFree(fs: seq<Blk>, mem: map<nat, Header>, live: map<nat, nat>, arena: set<nat>,
      base: nat, c: nat, k: nat)
    requires Sorted(fs) && fs[0] == Blk(base, 0) && Partition(fs, live, arena) && AllLive(mem, live)
    requires forall u :: u in arena ==> base < u
    requires c in live && k < |fs|
    ensures c != fs[k].addr
  {
    assert LiveOk(mem, live, c) && SizeOk(fs, k) && UnitOk(fs, live, arena, c);
    assert Covers(Blk(c, live[c]), c);
    assert !Covers(fs[k], c);
  }

  lemma {:induction false} TakenLive(fs: seq<Blk>, mem: map<nat, Header>, live: map<nat, nat>, arena: set<nat>,
      base: nat, j: nat, n: nat)
    requires Sorted(fs) && fs[0] == Blk(base, 0) && Linked(fs, mem) && Partition(fs, live, arena) && AllLive(mem, live)
    requires forall u :: u in arena ==> base < u
    requires 0 < j < |fs| && 1 <= n <= fs[j].size
    ensures fs[j].addr in mem && fs[j - 1].addr in mem && mem[fs[j].addr].size == fs[j].size
    ensures AllLive(TakenMem(mem, fs[j - 1].addr, fs[j].addr, n), live[Cut(fs, j, n).addr := n])
  {
    assert LinkOk(fs, mem, j) && LinkOk(fs, mem, j - 1);
    var a := Cut(fs, j, n).addr;
    var mem', live' := TakenMem(mem, fs[j - 1].addr, fs[j].addr, n), live[a := n];
    forall c: nat ensures LiveOk(mem', live', c) {
      assert LiveOk(mem, live, c);
      if c in live {
        LiveIsNotFree(fs, mem, live, arena, base, c, j);
        LiveIsNotFree(fs, mem, live, arena, base, c, j - 1);
      }
      SortedAt(fs, j - 1, j);
    }
    forall c: nat, d: nat ensures Apart(live', c, d) {
      assert Apart(live, c, d) && LiveOk(mem, live, c) && LiveOk(mem, live, d);
      if c in live { CutIsApart(fs, live, arena, j, n, c); }
      if d in live { CutIsApart(fs, live, arena, j, n, d); }
    }
  }

  lemma {:induction false} FreedLive(fs: seq<Blk>, mem: map<nat, Header>, live: map<nat, nat>, arena: set<nat>,
      base: nat, i: nat, a: nat)
    requires Sorted(fs) && fs[0] == Blk(base, 0) && Linked(fs, mem) && Partition(fs, live, arena) && AllLive(mem, live)
    requires forall u :: u in arena ==> base < u
    requires i < |fs| && a in live
    ensures fs[i].addr in mem && a in mem && mem[fs[i].addr].ptr in mem
    ensures AllLive(FreedMem(mem, fs[i].addr, a), live - {a})
  {
    assert LinkOk(fs, mem, i) && LinkOk(fs, mem, Succ(i, |fs|)) && LiveOk(mem, live, a);
    var mem', live' := FreedMem(mem, fs[i].addr, a), live - {a};
    forall c: nat ensures LiveOk(mem', live', c) {
      assert LiveOk(mem, live, c);
      if c in live { LiveIsNotFree(fs, mem, live, arena, base, c, i); }
    }
    forall c: nat, d: nat ensures Apart(live', c, d) {
      assert Apart(live, c, d);
    }
  }

  /** The units malloc needs for nbytes: the payload rounded up, plus the header. */
  function Units(nbytes: U32): (n: nat)
    ensures nbytes <= (n - 1) * HEADER_BYTES < nbytes + HEADER_BYTES
  {
    (nbytes + HEADER_BYTES - 1) / HEADER_BYTES + 1
  }

  ghost predicate NoFit(fs: seq<Blk>, n: nat) {
    forall i :: 0 <= i < |fs| ==> fs[i].size < n
  }

  lemma {:induction false} FitsAt(fs: seq<Blk>, i: nat, n: nat)
    requires i < |fs| && fs[i].size >= n
    ensures !NoFit(fs, n)
  {
    assert fs[i].size >= n;
  }

  /** If the search, going round from block k to block j, has passed block i, it was too small. */
  predicate Rejected(fs: seq<Blk>, n: nat, k: nat, j: nat, i: nat) {
    i < |fs| && (if k < j then k < i < j else i > k || i < j) ==> fs[i].size < n
  }

  /** Back at block k, the search has rejected every block. */
  lemma {:induction false} AllRejected(fs: seq<Blk>, n: nat, k: nat)
    requires k < |fs| && fs[k].size < n && forall i: nat {:trigger Rejected(fs, n, k, k, i)} :: Rejected(fs, n, k, k, i)
    ensures NoFit(fs, n)
  {
    forall i | 0 <= i < |fs| ensures fs[i].size < n {
      assert Rejected(fs, n, k, k, i);
    }
  }

  lemma {:induction false} SlotStops(fs: seq<Blk>, a: nat, i: nat, j: nat)
    requires Sorted(fs) && fs[0].addr < a && Slot(fs, a, i) && j < |fs|
    ensures var p, nxt := fs[j].addr, fs[Succ(j, |fs|)].addr;
      j == i <==> (a > p && a < nxt) || (p >= nxt && (a > p || a < nxt))
  {
    if j < i { SortedAt(fs, j, i); } else if i < j { SortedAt(fs, i, j); }
    if j + 1 < i { SortedAt(fs, j + 1, i); }
    if i + 1 < j { SortedAt(fs, i + 1, j); }
    if j + 1 < |fs| { SortedAt(fs, j, j + 1); }
    if 0 < j { SortedAt(fs, 0, j); }
  }

  class Heap {
    /** address of the static header `base`, below all memory sbrk returns */
    const base: nat
    /** None before the first call */
    var freep: Option<nat>
    var mem: map<nat, Header>
    /** the free list in address order, starting with base */
    ghost var fs: seq<Blk>
    /** blocks handed out and not yet freed: header address to size */
    ghost var live: map<nat, nat>
    /** every unit obtained from sbrk */
    ghost var arena: set<nat>
    /** the break: sbrk returns memory at or above it */
    ghost var top: nat

    ghost predicate Valid()
      reads this
    {
      && Sorted(fs) && fs[0] == Blk(base, 0)
      && base < top && (forall u :: u in arena ==> base < u < top)
      && (freep.Some? ==> Linked(fs, mem) && exists k: nat :: k < |fs| && fs[k].addr == freep.value)
      && (freep.None? ==> fs == [Blk(base, 0)] && live == map[])
      && Partition(fs, live, arena) && AllLive(mem, live)
    }

    constructor (base: nat)
      ensures Valid() && live == map[] && arena == {} && this.base == base
    {
      this.base := base;
      freep, mem := None, map[];
      fs, live, arena, top := [Blk(base, 0)], map[], {}, base + 1;
      new;
      forall u: nat ensures UnitOk(fs, live, arena, u) {
        assert forall i: nat :: i < |fs| ==> !Covers(fs[i], u);
      }
    }

    /** free(ap) for the block whose header is at a: it leaves the allocated
        blocks, its units join the free list, and the list stays one cycle in
        address order with no two adjacent blocks. */
    method Free(a: nat)
      requires Valid() && a in live && freep.Some?
      modifies this
      ensures Valid() && freep.Some?
      ensures live == old(live) - {a} && arena == old(arena) && top == old(top)
      ensures exists m: nat :: m < |fs| && fs[m].addr <= a && a + old(live)[a] <= fs[m].End()
    {
      ghost var i := LiveFitsSlot(fs, mem, live, arena, base, a);
      ghost var b := Blk(a, live[a]);
      assert LiveOk(mem, live, a);
      var p := FindPlace(a, i);
      hide Sorted, Linked, Partition, AllLive, Freed, FreedMem;
      FreedSorted(fs, i, b);
      FreedLinked(fs, mem, i, b);
      FreedPartition(fs, mem, live, arena, i, a);
      FreedLive(fs, mem, live, arena, base, i, a);
      ghost var m := FreedHolds(fs, i, b);
      Splice(p, a);
      fs, live := Freed(fs, i, b), live - {a};
      freep := Some(p);
      assert fs[i].addr == p;
    }

    /** The loop of free: p is the free block below a. */
    method FindPlace(a: nat, ghost i: nat) returns (p: nat)
      requires Sorted(fs) && Linked(fs, mem) && fs[0].addr < a && Slot(fs, a, i)
      requires freep.Some? && exists k: nat :: k < |fs| && fs[k].addr == freep.value
      ensures p == fs[i].addr
    {
      ghost var j: nat :| j < |fs| && fs[j].addr == freep.value;
      p := freep.value;
      assert LinkOk(fs, mem, j);
      while !(a > p && a < mem[p].ptr)
        invariant j < |fs| && fs[j].addr == p && LinkOk(fs, mem, j)
        decreases Distance(j, i, |fs|)
      {
        SlotStops(fs, a, i, j);
        if p >= mem[p].ptr && (a > p || a < mem[p].ptr) {
          break;
        }
        p := mem[p].ptr;
        j := Succ(j, |fs|);
        assert LinkOk(fs, mem, j);
      }
      SlotStops(fs, a, i, j);
    }

    /** The two if-statements of free, after the search. */
    method Splice(p: nat, bp: nat)
      requires p in mem && bp in mem && mem[p].ptr in mem
      modifies `mem
      ensures mem == FreedMem(old(mem), p, bp)
    {
      var nxt := mem[p].ptr;
      if bp + mem[bp].size == nxt {
        mem := mem[bp := Header(mem[nxt].ptr, mem[bp].size + mem[nxt].size)];
      } else {
        mem := mem[bp := mem[bp].(ptr := nxt)];
      }
      if p + mem[p].size == bp {
        mem := mem[p := Header(mem[bp].ptr, mem[p].size + mem[bp].size)];
      } else {
        mem := mem[p := mem[p].(ptr := bp)];
      }
    }

    /** The break sbrk was asked for: nu units, as sbrk's int argument. */
    static predicate SbrkArgOk(nu: nat) {
      nu * HEADER_BYTES < TWO_31
    }

    /** morecore(nu), given what sbrk returns: a fresh block of at least nu units
        joins the free list, or nothing changes. */
    method Morecore(nu: nat, brk: Option<nat>) returns (ok: bool)
      requires Valid() && freep.Some? && nu >= 1 && SbrkArgOk(nu)
      requires brk.Some? ==> brk.value >= top
      modifies this
      ensures Valid() && freep.Some? && live == old(live) && ok == brk.Some?
      ensures ok ==> !NoFit(fs, nu)
      ensures ok ==> arena == old(arena) + Range(brk.value, if nu < MIN_UNITS then MIN_UNITS else nu)
      ensures !ok ==> unchanged(this)
    {
      var n := if nu < MIN_UNITS then MIN_UNITS else nu;
      if brk.None? {
        return false;
      }
      var hp := brk.value;
      assert hp !in live by {
        assert LiveOk(mem, live, hp) && UnitOk(fs, live, arena, hp);
        assert hp in live ==> Covers(Blk(hp, live[hp]), hp);
      }
      GrowPartition(fs, live, arena, base, top, hp, n);
      var h := Header(if hp in mem then mem[hp].ptr else 0, n);
      GrowLinked(fs, mem, live, arena, base, top, hp, h);
      mem := mem[hp := h];
      live, arena, top := live[hp := n], arena + Range(hp, n), hp + n;
      Free(hp);
      assert live == old(live);
      return true;
    }

    /** malloc(nbytes), given what sbrk returns if it is asked. On success the
        block is new, big enough, and disjoint from every other allocated block
        and from the free list; on failure nothing allocated changes. sbrk is
        asked at most once, and only if no free block fits. */
    method Malloc(nbytes: U32, brk: Option<nat>) returns (r: Option<nat>)
      requires Valid() && SbrkArgOk(Units(nbytes))
      requires brk.Some? ==> brk.value >= top
      modifies this
      ensures Valid() && freep.Some?
      ensures r.Some? ==> r.value > 0 && r.value - 1 !in old(live) && live == old(live)[r.value - 1 := Units(nbytes)]
      ensures r.None? ==> live == old(live) && arena == old(arena) && brk.None?
      ensures !NoFit(old(fs), Units(nbytes)) ==> r.Some? && arena == old(arena)
      ensures NoFit(old(fs), Units(nbytes)) && brk.None? ==> r.None?
    {
      hide Sorted, Partition, AllLive, NoFit;
      var nunits := Units(nbytes);
      if freep.None? {
        Init();
      }
      ghost var k: nat :| k < |fs| && fs[k].addr == freep.value;
      var prevp := freep.value;
      assert LinkOk(fs, mem, k);
      var p := mem[prevp].ptr;
      ghost var q: nat, j: nat, grown := k, Succ(k, |fs|), false;
      assert LinkOk(fs, mem, j);
      while true
        invariant Valid() && freep.Some? && live == old(live)
        invariant k < |fs| && fs[k].addr == freep.value
        invariant q < |fs| && j == Succ(q, |fs|) && fs[q].addr == prevp && fs[j].addr == p
        invariant forall i: nat {:trigger Rejected(fs, nunits, k, j, i)} :: Rejected(fs, nunits, k, j, i)
        invariant !grown ==> fs == old(fs) && arena == old(arena) && top == old(top)
        invariant grown ==> NoFit(old(fs), nunits)
        invariant grown ==> brk.Some? && !NoFit(fs, nunits)
        decreases if grown then 0 else 1, Distance(j, k, |fs|)
      {
        assert LinkOk(fs, mem, j) && LinkOk(fs, mem, q);
        if mem[p].size >= nunits {
          FitsAt(fs, j, nunits);
          var a := Take(prevp, p, nunits, j);
          return Some(a + 1);
        }
        if p == freep.value {
          AddrUnique(fs, j, k);
          AllRejected(fs, nunits, k);
          var ok := Morecore(nunits, brk);
          if !ok {
            return None;
          }
          grown := true;
          p := freep.value;
          k :| k < |fs| && fs[k].addr == freep.value;
          j := k;
        }
        assert LinkOk(fs, mem, j);
        forall i: nat ensures Rejected(fs, nunits, k, Succ(j, |fs|), i) {
          assert j != k ==> Rejected(fs, nunits, k, j, i);
        }
        prevp, p := p, mem[p].ptr;
        q, j := j, Succ(j, |fs|);
      }
    }

    /** malloc's first call: base becomes a cycle of one empty block. */
    method Init()
      requires Valid() && freep.None?
      modifies `freep, `mem
      ensures Valid() && freep.Some?
    {
      freep := Some(base);
      mem := mem[base := Header(base, 0)];
    }

    /** malloc's allocation from block p, which is big enough. */
    method Take(prevp: nat, p: nat, nunits: nat, ghost j: nat) returns (a: nat)
      requires Valid() && freep.Some? && nunits >= 1
      requires 0 < j < |fs| && fs[j].addr == p && fs[j - 1].addr == prevp && fs[j].size >= nunits
      modifies this
      ensures Valid() && freep.Some? && arena == old(arena) && top == old(top)
      ensures a !in old(live) && live == old(live)[a := nunits]
    {
      TakenLinked(fs, mem, j, nunits);
      TakenSorted(fs, j, nunits);
      TakenPartition(fs, mem, live, arena, j, nunits);
      TakenLive(fs, mem, live, arena, base, j, nunits);
      if mem[p].size == nunits {
        a := p;
        mem := mem[prevp := mem[prevp].(ptr := mem[p].ptr)];
      } else {
        mem := mem[p := mem[p].(size := mem[p].size - nunits)];
        a := p + mem[p].size;
        mem := mem[a := Header(if a in mem then mem[a].ptr else 0, nunits)];
      }
      fs, live := Taken(fs, j, nunits), live[a := nunits];
      freep := Some(prevp);
      assert fs[j - 1].addr == prevp;
    }
  }

  lemma {:induction false} AddrUnique(fs: seq<Blk>, i: nat, j: nat)
    requires Sorted(fs) && i < |fs| && j < |fs| && fs[i].addr == fs[j].addr
    ensures i == j
  {
    if i < j { SortedAt(fs, i, j); } else if j < i { SortedAt(fs, j, i); }
  }

  lemma {:induction false} FreeBelowTop(fs: seq<Blk>, live: map<nat, nat>, arena: set<nat>, base: nat, top: nat, k: nat)
    requires Sorted(fs) && fs[0] == Blk(base, 0) && base < top && Partition(fs, live, arena)
    requires forall u :: u in arena ==> base < u < top
    requires k < |fs|
    ensures fs[k].addr < top && fs[k].End() <= top
  {
    if k > 0 {
      assert SizeOk(fs, k);
      var u := fs[k].End() - 1;
      assert UnitOk(fs, live, arena, u) && Covers(fs[k], u);
    }
  }

  lemma {:induction false} GrowPartition(fs: seq<Blk>, live: map<nat, nat>, arena: set<nat>, base: nat, top: nat,
      hp: nat, n: nat)
    requires Sorted(fs) && fs[0] == Blk(base, 0) && base < top && Partition(fs, live, arena) && hp !in live
    requires forall u :: u in arena ==> base < u < top
    requires hp >= top && n >= 1
    ensures Partition(fs, live[hp := n], arena + Range(hp, n))
  {
    var live', arena' := live[hp := n], arena + Range(hp, n);
    forall u: nat ensures UnitOk(fs, live', arena', u) {
      assert UnitOk(fs, live, arena, u);
      if InLive(live, u) {
        var c :| c in live && Covers(Blk(c, live[c]), u);
        assert c in live' && Covers(Blk(c, live'[c]), u);
      }
      if hp <= u < hp + n {
        assert hp in live' && Covers(Blk(hp, live'[hp]), u);
      }
    }
  }

  lemma {:induction false} GrowLinked(fs: seq<Blk>, mem: map<nat, Header>, live: map<nat, nat>, arena: set<nat>,
      base: nat, top: nat, hp: nat, h: Header)
    requires Sorted(fs) && fs[0] == Blk(base, 0) && base < top && Linked(fs, mem) && Partition(fs, live, arena)
      && AllLive(mem, live)
    requires forall u :: u in arena ==> base < u < top
    requires hp >= top && h.size >= 1 && hp !in live
    ensures Linked(fs, mem[hp := h]) && AllLive(mem[hp := h], live[hp := h.size])
  {
    var mem', live' := mem[hp := h], live[hp := h.size];
    forall i: nat ensures LinkOk(fs, mem', i) {
      assert LinkOk(fs, mem, i);
      if i < |fs| { FreeBelowTop(fs, live, arena, base, top, i); }
    }
    forall c: nat ensures LiveOk(mem', live', c) {
      assert LiveOk(mem, live, c);
    }
    forall c: nat, d: nat ensures Apart(live', c, d) {
      assert Apart(live, c, d) && LiveOk(mem, live, c) && LiveOk(mem, live, d);
      if c in live { LiveBelowTop(fs, mem, live, arena, top, c); }
      if d in live { LiveBelowTop(fs, mem, live, arena, top, d); }
    }
  }

  lemma {:induction false} LiveBelowTop(fs: seq<Blk>, mem: map<nat, Header>, live: map<nat, nat>, arena: set<nat>,
      top: nat, c: nat)
    requires Partition(fs, live, arena) && AllLive(mem, live) && c in live
    requires forall u :: u in arena ==> u < top
    ensures c + live[c] <= top
  {
    assert LiveOk(mem, live, c);
    var u := c + live[c] - 1;
    assert UnitOk(fs, live, arena, u) && Covers(Blk(c, live[c]), u);
  }
}
