/** kernel/vm.c and kernel/kalloc.c: page-table pages in physical memory, the
    page allocator they share, and who owns every page. */
module Vm {
  import opened Bytes
  import opened PageTable
  import opened AddressSpace
  import opened TearDown
  import opened NewSpace

  /** perm | PTE_V */
  function WithV(perm: nat): (f: nat) {
    if Present(perm) then perm else perm + PTE_V
  }

  /** It sets bit 0 and leaves the other bits as they are. */
  lemma {:induction false} WithVBits(perm: nat)
    requires perm < 1024
    ensures WithV(perm) < 1024 && Present(WithV(perm)) && WithV(perm) / 2 == perm / 2
    ensures !Present(perm) ==> WithV(perm) == PTE_V + perm
  {
  }

  // Bits 1 to 4 of the flags.
  predicate MayRead(f: nat) { f / 2 % 2 == 1 }
  predicate MayWrite(f: nat) { f / 4 % 2 == 1 }
  predicate MayExecute(f: nat) { f / 8 % 2 == 1 }
  predicate ForUser(f: nat) { f / 16 % 2 == 1 }

  predicate MapsAt(mem: Mem, root: nat, v: nat, k: nat, q: nat, perm: nat, w: nat) {
    v <= w < v + k ==>
      var e := Lookup(mem, root, w);
      e.Some? && Present(e.value) && Ppn(e.value) == q + (w - v) && Flags(e.value) / 2 == perm / 2
  }

  /** The k pages from v on are mapped to the pages from q on, each with the bits of perm
      and the valid bit. */
  ghost predicate MapsPages(mem: Mem, root: nat, v: nat, k: nat, q: nat, perm: nat) {
    forall w: nat {:trigger MapsAt(mem, root, v, k, q, perm, w)} :: MapsAt(mem, root, v, k, q, perm, w)
  }

  lemma {:induction false} AddedPages(m0: Mem, role0: Roles, m1: Mem, role1: Roles, root: nat, v: nat, k: nat, q: nat,
      perm: nat)
    requires IsRoot(role0, root) && Unmapped(m0, root, v, k) && perm < 1024
    requires AddedTo(m0, role0, m1, role1, root, v, k, Consecutive(v, k, q, WithV(perm)))
    ensures MapsPages(m1, root, v, k, q, perm)
  {
    var flags := WithV(perm);
    WithVBits(perm);
    forall w: nat ensures MapsAt(m1, root, v, k, q, perm, w) {
      assert RewrittenAt(m0, m1, role0, root, v, k, Consecutive(v, k, q, flags), root, w);
      assert UnmappedAt(m0, root, v, k, w);
      if v <= w < v + k { PteRoundTrip(q + (w - v), flags); }
    }
  }

  /** The entries proc_pagetable makes: the trampoline may be read and executed, the
      trapframe read and written, neither by the user. */
  predicate HighEntries(mem: Mem, root: nat, tf: nat, tramp: nat) {
    var t, f := Lookup(mem, root, TRAMPVPN), Lookup(mem, root, FRAMEVPN);
    && t.Some? && Ppn(t.value) == tramp && f.Some? && Ppn(f.value) == tf
    && HighBits(Flags(t.value), false) && HighBits(Flags(f.value), true)
  }

  /** Valid and readable, not for the user; to be written or to be executed. */
  predicate HighBits(f: nat, write: bool) {
    Present(f) && MayRead(f) && !ForUser(f) && MayWrite(f) == write && MayExecute(f) == !write
  }

  lemma {:induction false} HighMade(mem: Mem, root: nat, tf: nat, tramp: nat)
    requires OnlyMaps(mem, root, ProcMaps(tf, tramp))
    ensures HighEntries(mem, root, tf, tramp)
  {
    assert HighBits(11, false) && HighBits(7, true);
    hide Lookup, HighBits;
    assert OnlyMapsAt(mem, root, ProcMaps(tf, tramp), TRAMPVPN) && OnlyMapsAt(mem, root, ProcMaps(tf, tramp), FRAMEVPN);
    PteRoundTrip(tramp, 11);
    PteRoundTrip(tf, 7);
  }

  /** The flags of a user page: readable by the user, and W and X as in xperm. */
  predicate UserBits(flags: nat, xperm: nat) {
    && Present(flags) && MayRead(flags) && ForUser(flags)
    && MayWrite(flags) == MayWrite(xperm) && MayExecute(flags) == MayExecute(xperm)
  }

  lemma {:induction false} UserFlags(xperm: nat)
    requires xperm in {0, PTE_W, PTE_X, PTE_W + PTE_X}
    ensures WithV(PTE_R + PTE_U + xperm) == PTE_V + PTE_R + PTE_U + xperm && IsLeaf(PTE_R + PTE_U + xperm)
    ensures UserBits(PTE_V + PTE_R + PTE_U + xperm, xperm)
  {
  }

  predicate UserFlag(e: nat) { e / PTE_U % 2 == 1 }

  datatype Walked = WalkPanic | Missing | Slot(table: nat, index: nat)

  function PteFrom(v: nat, ppn: nat, flags: nat, w: nat): (e: nat)
    requires v <= w
  {
    Pte(ppn + (w - v), flags)
  }

  /** The entries of k pages from v on that map the physical pages from ppn on. */
  function Consecutive(v: nat, k: nat, ppn: nat, flags: nat): (m: map<nat, nat>) {
    map w: nat | v <= w < v + k :: PteFrom(v, ppn, flags, w)
  }

  /** One more page, or none, in front of a run of consecutive pages. */
  lemma {:induction false} ConsecutiveNext(v: nat, k: nat, d: nat, ppn: nat, flags: nat)
    requires d <= 1
    ensures d == 1 ==>
      Get(Consecutive(v, k + d, ppn, flags), v + k) == Get(Consecutive(v + k, d, ppn + k, flags), v + k)
    ensures forall w :: v <= w < v + k ==>
      Get(Consecutive(v, k + d, ppn, flags), w) == Get(Consecutive(v, k, ppn, flags), w)
  {
  }

  lemma {:induction false} OnePage(v: nat, ppn: nat, flags: nat)
    requires flags < 1024
    ensures Consecutive(v, 1, ppn, flags) == map[v := Pte(ppn, flags)] && Ppn(Pte(ppn, flags)) == ppn
  {
    PteRoundTrip(ppn, flags);
    assert Get(Consecutive(v, 1, ppn, flags), v) == Some(Pte(ppn, flags));
  }

  /** Filling a page just taken from the free list. */
  lemma {:induction false} FillLoose(m0: Mem, m1: Mem, role0: Roles, role1: Roles, tab: Tab, q: nat, page: Page)
    requires TreesOk(m0, role0, tab) && TreesOk(m1, role1, tab) && q in role0 && role0[q].Free?
      && role1 == role0[q := Held] && q in m1 && m1 == m0[q := m1[q]] && |page| == ENTRIES
    ensures TreesOk(m1[q := page], role1, tab) && SameMaps(m0, m1[q := page], role0) && m1[q := page] == m0[q := page]
  {
    assert m1[q := page] == m0[q := page] && role1[q := Held] == role1;
    LooseStep(m1, role1, tab, q, page, Held);
    LooseStep(m0, role0, tab, q, page, Held);
  }

  lemma {:induction false} LeafFlags(e: nat)
    ensures Flags(e) == PTE_V ==> !IsLeaf(e)
  {
  }

  lemma {:induction false} FlagsOf(e: nat)
    ensures Flags(e) < 1024 && Present(Flags(e)) == Present(e) && IsLeaf(Flags(e)) == IsLeaf(e)
  {
    PteRoundTrip(Ppn(e), Flags(e));
  }

  lemma {:induction false} PageStep(a: nat, k: nat)
    ensures (a + k * PGSIZE) / PGSIZE == a / PGSIZE + k
  {
  }

  predicate BadRange(va: nat, size: nat) { va % PGSIZE != 0 || size % PGSIZE != 0 || size == 0 }

  function Pages(sz: nat): (n: nat) { (sz + PGSIZE - 1) / PGSIZE }

  /** PGROUNDUP */
  function RoundUp(sz: nat): (a: nat)
    ensures sz <= a < sz + PGSIZE && a % PGSIZE == 0
  {
    Pages(sz) * PGSIZE
  }

  lemma {:induction false} RoundedPages(n: nat)
    ensures Pages(n * PGSIZE) == n
  {
  }

  /** What proc_pagetable maps: the trampoline and the trapframe. */
  function ProcMaps(tf: nat, tramp: nat): (m: map<nat, nat>) {
    map[TRAMPVPN := Pte(tramp, PTE_V + PTE_R + PTE_X), FRAMEVPN := Pte(tf, PTE_V + PTE_R + PTE_W)]
  }

  lemma {:induction false} OnlyProcMaps(m1: Mem, m2: Mem, role: Roles, root: nat, tf: nat, tramp: nat)
    requires OnlyMaps(m1, root, ProcMaps(tf, tramp)) && SameMaps(m1, m2, role) && IsRoot(role, root)
    requires tramp !in role && tf in role && role[tf] == Held
    ensures MappedAll(m2, root, 0, 0) && Unmapped(m2, root, 0, FRAMEVPN)
    ensures Lookup(m2, root, TRAMPVPN) == Some(Pte(tramp, PTE_V + PTE_R + PTE_X))
      && Lookup(m2, root, FRAMEVPN) == Some(Pte(tf, PTE_V + PTE_R + PTE_W))
    ensures NotUser(m2, role[tf := Free], root, TRAMPVPN) && NotUser(m2, role[tf := Free], root, FRAMEVPN)
  {
    var now := ProcMaps(tf, tramp);
    forall w: nat ensures OnlyMapsAt(m2, root, now, w) && UnmappedAt(m2, root, 0, FRAMEVPN, w) {
      assert OnlyMapsAt(m1, root, now, w) && SameEntry(m1, m2, role, root, w);
    }
    assert OnlyMapsAt(m2, root, now, TRAMPVPN) && OnlyMapsAt(m2, root, now, FRAMEVPN);
    PteRoundTrip(tramp, PTE_V + PTE_R + PTE_X);
    PteRoundTrip(tf, PTE_V + PTE_R + PTE_W);
  }

  datatype Sized = Size(sz: nat) | NoMemory | SizePanic

  datatype Mapped = MapOk | MapFail | MapPanic

  const ZERO_PAGE: Page := seq(ENTRIES, _ => 0)
  /** Before kinit runs, every page is the kernel's and holds anything. */
  function BootPage(p: nat): (r: Page) { seq(ENTRIES, _ => p) }
  function BootRole(p: nat): (r: Role) { Held }
  const JUNK_FREED: nat := 0x0101_0101_0101_0101
  const JUNK_NEW: nat := 0x0505_0505_0505_0505

  class Vm {
    /** contents of every page kalloc manages */
    var mem: Mem
    /** kmem.freelist, first page first */
    var freelist: seq<nat>
    ghost var role: Roles
    ghost var tab: Tab

    ghost predicate Valid()
      reads this
    {
      TreesOk(mem, role, tab) && FreeListOk(freelist, role) && NoneDying(role)
    }

    /** The invariant between operations: moreover, what an address space maps
        below the trapframe is its own. */
    ghost predicate Safe()
      reads this
    {
      Valid() && Owned(mem, role)
    }

    /** Like Valid, while freewalk is taking a tree down. */
    ghost predicate Sound()
      reads this
    {
      TreesOk(mem, role, tab) && FreeListOk(freelist, role)
    }

    /** kinit(): freerange() hands every page from lo to hi to kfree(). */
    constructor (lo: nat, hi: nat)
      requires lo <= hi
      ensures Safe() && forall p :: (p in role <==> lo <= p < hi) && (p in role ==> role[p].Free?)
    {
      mem := map p: nat | lo <= p < hi :: BootPage(p);
      role := map p: nat | lo <= p < hi :: BootRole(p);
      tab := map[];
      freelist := [];
      new;
      var p := lo;
      while p < hi
        invariant lo <= p <= hi && Safe()
        invariant forall q :: (q in role <==> lo <= q < hi) && (q in role ==> role[q] == if q < p then Free else Held)
      {
        Kfree(p);
        p := p + 1;
      }
    }

    method Kalloc() returns (r: Option<nat>)
      requires Sound()
      modifies this
      ensures Sound() && tab == old(tab) && (old(NoneDying(role)) ==> NoneDying(role))
      ensures r.None? <==> old(freelist) == []
      ensures r.None? ==> mem == old(mem) && role == old(role) && freelist == old(freelist)
      ensures r.Some? ==> r.value in old(role) && old(role)[r.value] == Free && role == old(role)[r.value := Held]
      ensures r.Some? ==>
        mem == old(mem)[r.value := seq(ENTRIES, _ => JUNK_NEW)] && [r.value] + freelist == old(freelist)
      ensures SameMaps(old(mem), mem, old(role))
    {
      if freelist == [] {
        SameMapsRefl(mem, role);
        return None;
      }
      var p := freelist[0];
      assert freelist == [p] + freelist[1..];
      assert FreeOk(freelist, role, p);
      ghost var role' := role[p := Held];
      LooseStep(mem, role, tab, p, seq(ENTRIES, _ => JUNK_NEW), Held);
      ghost var rest := freelist[1..];
      forall q: nat ensures FreeOk(rest, role', q) {
        assert FreeOk(freelist, role, q);
      }
      NotDyingStep(role, p, Held);
      freelist := freelist[1..];
      mem, role := mem[p := seq(ENTRIES, _ => JUNK_NEW)], role';
      return Some(p);
    }

    method Kfree(p: nat)
      requires Sound() && p in role && role[p] == Held
      modifies this
      ensures Sound() && tab == old(tab) && (old(NoneDying(role)) ==> NoneDying(role))
      ensures role == old(role)[p := Free] && freelist == [p] + old(freelist)
      ensures mem == old(mem)[p := seq(ENTRIES, _ => JUNK_FREED)]
      ensures SameMaps(old(mem), mem, old(role))
    {
      ghost var role' := role[p := Free];
      LooseStep(mem, role, tab, p, seq(ENTRIES, _ => JUNK_FREED), Free);
      ghost var freelist' := [p] + freelist;
      forall q: nat ensures FreeOk(freelist', role', q) {
        assert FreeOk(freelist, role, q) && FreeOk(freelist, role, p);
      }
      NotDyingStep(role, p, Free);
      mem := mem[p := seq(ENTRIES, _ => JUNK_FREED)];
      freelist, role := [p] + freelist, role';
    }

    /** kalloc, then memset or memmove the whole page. */
    method KallocFilled(page: Page) returns (r: Option<nat>)
      requires Valid() && |page| == ENTRIES
      modifies this
      ensures Valid() && tab == old(tab)
      ensures r.None? <==> old(freelist) == []
      ensures r.None? ==> mem == old(mem) && role == old(role) && freelist == old(freelist)
      ensures r.Some? ==> r.value in old(role) && old(role)[r.value] == Free && role == old(role)[r.value := Held]
      ensures r.Some? ==> mem == old(mem)[r.value := page] && [r.value] + freelist == old(freelist)
      ensures SameMaps(old(mem), mem, old(role))
    {
      r := Kalloc();
      if r.Some? {
        FillLoose(old(mem), mem, old(role), role, tab, r.value, page);
        mem := mem[r.value := page];
      }
    }

    /** walk's allocating step: an empty table below table t. */
    method AddTable(root: nat, vpn: nat, level: nat, t: nat) returns (n: Option<nat>)
      requires Valid() && IsRoot(role, root) && vpn < MAXVPN && 0 < level <= 2
      requires TableAt(mem, root, vpn, level) == Some(t) && TableAt(mem, root, vpn, level - 1).None?
      modifies this
      ensures Valid() && IsRoot(role, root)
      ensures SameMaps(old(mem), mem, old(role)) && OnlyTablesAdded(old(role), role, root)
      ensures DataKept(old(mem), old(role), mem, role)
      ensures n.None? ==> freelist == []
      ensures n.Some? ==> TableAt(mem, root, vpn, level - 1) == n
      ensures |old(freelist)| == |freelist| + if n.Some? then 1 else 0
    {
      TableRole(mem, role, tab, root, vpn, level);
      n := KallocFilled(seq(ENTRIES, _ => 0));
      if n.None? {
        GrownRefl(role, root);
        DataRefl(mem, role, tab);
        return;
      }
      ghost var mem1, role1, k, i := mem, role, n.value, Index(level, vpn);
      TableKept(old(mem), old(role), tab, mem, root, vpn, k);
      assert forall q :: q in role ==> NotDying(role, q);
      LinkFound(mem, role, tab, root, vpn, level, t, k);
      LinkKeepsTrees(mem, role, tab, t, i, k);
      LinkKeepsMaps(mem, role, tab, t, i, k);
      ghost var role2 := LinkedRole(role, t, i, k);
      LinkRoles(old(role), role1, role2, freelist, root, t, i, k);
      SameMapsTrans(old(mem), mem1, LinkedMem(mem, t, i, k), old(role), role1);
      LinkData(old(mem), old(role), tab, mem1, LinkedMem(mem, t, i, k), role2, t, k);
      tab, role := tab[LinkedLoc(role, t, i) := k], role2;
      mem := mem[t := SetEntry(mem[t], Index(level, vpn), Pte(n.value, PTE_V))];
    }

    /** walk(): find the entry for va, whose page number is v, adding tables on
        the way if alloc. No translation changes, whatever the outcome. */
    method Walk(root: nat, va: nat, alloc: bool, ghost v: nat) returns (r: Walked)
      requires Valid() && IsRoot(role, root) && v == va / PGSIZE
      modifies this
      ensures Valid() && IsRoot(role, root)
      ensures SameMaps(old(mem), mem, old(role)) && OnlyTablesAdded(old(role), role, root)
      ensures DataKept(old(mem), old(role), mem, role)
      ensures r.WalkPanic? <==> v >= MAXVPN
      ensures r.Slot? ==> TableAt(mem, root, v, 0) == Some(r.table) && r.index == Index(0, v)
      ensures r.Missing? && !alloc ==> TableAt(mem, root, v, 0).None?
      ensures r.Missing? && alloc ==> freelist == []
      ensures !alloc ==> mem == old(mem) && role == old(role) && freelist == old(freelist) && tab == old(tab)
      ensures |old(freelist)| <= |freelist| + 2 && (r.Missing? && alloc ==> |old(freelist)| < 2)
    {
      PageBound(va);
      SameMapsRefl(mem, role);
      GrownRefl(role, root);
      DataRefl(mem, role, tab);
      if va >= MAXVA {
        return WalkPanic;
      }
      PXIsIndex(2, va);
      var level, t := 2, root;
      while level > 0
        invariant 0 <= level <= 2 && Valid() && IsRoot(role, root)
        invariant TableAt(mem, root, v, level) == Some(t)
        invariant SameMaps(old(mem), mem, old(role)) && OnlyTablesAdded(old(role), role, root)
        invariant DataKept(old(mem), old(role), mem, role) && |old(freelist)| <= |freelist| + (2 - level)
        invariant !alloc ==> mem == old(mem) && role == old(role) && freelist == old(freelist) && tab == old(tab)
      {
        PXIsIndex(level, va);
        TableRole(mem, role, tab, root, v, level);
        var e := mem[t][PX(level, va)];
        if Present(e) {
          t := Ppn(e);
        } else {
          if !alloc {
            MissingBelow(mem, root, v, level);
            return Missing;
          }
          ghost var mem1, role1 := mem, role;
          var n := AddTable(root, va / PGSIZE, level, t);
          GrownRoots(old(role), role1, root);
          SameMapsTrans(old(mem), mem1, mem, old(role), role1);
          GrownTrans(old(role), role1, role, root);
          GrownData(old(mem), mem1, mem, old(role), role1, role, root);
          if n.None? {
            return Missing;
          }
          t := n.value;
        }
        level := level - 1;
      }
      PXIsIndex(0, va);
      return Slot(t, PX(0, va));
    }

    /** *pte = e for the entry of vpn in table t. */
    method SetPte(root: nat, vpn: nat, t: nat, e: nat)
      requires Valid() && IsRoot(role, root) && vpn < MAXVPN && TableAt(mem, root, vpn, 0) == Some(t)
      requires Present(e) ==> IsLeaf(e)
      requires LeafChanges(role, role, root, vpn, e)
      modifies `mem
      ensures Valid() && t in old(mem) && t in mem && mem == old(mem)[t := mem[t]] && t in role && role[t].Table?
      ensures Rewritten(old(mem), mem, role, root, vpn, 1, if Present(e) then map[vpn := e] else map[])
    {
      TableRole(mem, role, tab, root, vpn, 0);
      LeafKeepsTrees(mem, role, tab, root, vpn, t, e, role);
      LeafKeepsMaps(mem, role, tab, root, vpn, t, e);
      mem := mem[t := SetEntry(mem[t], Index(0, vpn), e)];
    }

    /** walkaddr(): the physical page of a user mapping, 0 (None) otherwise. */
    method Walkaddr(root: nat, va: nat) returns (ppn: Option<nat>)
      requires Valid() && IsRoot(role, root)
      modifies this
      ensures Valid() && mem == old(mem) && role == old(role) && freelist == old(freelist)
      ensures ppn.Some? <==>
        va < MAXVA && Lookup(mem, root, va / PGSIZE).Some? && UserFlag(Lookup(mem, root, va / PGSIZE).value)
      ensures ppn.Some? ==> ppn.value == Ppn(Lookup(mem, root, va / PGSIZE).value)
    {
      if va >= MAXVA {
        return None;
      }
      PageBound(va);
      var w := Walk(root, va, false, va / PGSIZE);
      if w.Missing? {
        return None;
      }
      TableRole(mem, role, tab, root, va / PGSIZE, 0);
      var e := mem[w.table][w.index];
      if !Present(e) || !UserFlag(e) {
        return None;
      }
      return Some(Ppn(e));
    }

    /** One round of mappages' loop; k says whether it mapped the page. */
    method MapPage(root: nat, a: nat, p: nat, perm: nat, ghost v: nat, ghost q: nat) returns (r: Mapped, ghost k: nat)
      requires Valid() && IsRoot(role, root) && perm < 1024 && IsLeaf(perm) && v == a / PGSIZE && q == p / PGSIZE
      modifies this
      ensures Valid() && k == if r.MapOk? then 1 else 0
      ensures AddedTo(old(mem), old(role), mem, role, root, v, k, Consecutive(v, k, q, WithV(perm)))
      ensures r.MapPanic? <==> v >= MAXVPN || (!r.MapFail? && Lookup(old(mem), root, v).Some?)
      ensures r.MapFail? ==> freelist == []
      ensures |old(freelist)| <= |freelist| + 2 && (r.MapFail? ==> |old(freelist)| < 2)
    {
      k := 0;
      var w := Walk(root, a, true, v);
      ghost var mem1, flags := mem, WithV(perm);
      AddedTables(old(mem), old(role), mem, role, root, v);
      assert Consecutive(v, 0, q, flags) == map[];
      if w.WalkPanic? {
        return MapPanic, k;
      }
      if w.Missing? {
        return MapFail, k;
      }
      TableRole(mem, role, tab, root, v, 0);
      var e := mem[w.table][w.index];
      assert SameEntry(old(mem), mem, old(role), root, v);
      if Present(e) {
        return MapPanic, k;
      }
      var pte := Pte(p / PGSIZE, WithV(perm));
      PteRoundTrip(p / PGSIZE, WithV(perm));
      NoUserThere(mem, role, tab, root, v, pte);
      SetPte(root, a / PGSIZE, w.table, pte);
      TableData(mem1, mem, role, tab, w.table);
      GrownRefl(role, root);
      assert Get(Consecutive(v, 1, q, flags), v) == Some(pte);
      AddedNext(old(mem), mem1, mem, old(role), role, role, root, v, 0, map[], 1, map[v := pte],
          Consecutive(v, 1, q, flags));
      return MapOk, 1;
    }

    /** mappages(): k is how many pages got mapped, v and q are the first virtual
        and physical page number. Success maps the whole range and nothing else;
        running out of memory maps a prefix and nothing else. */
    method Mappages(root: nat, va: nat, size: nat, pa: nat, perm: nat, ghost v: nat, ghost q: nat)
        returns (r: Mapped, ghost k: nat)
      requires Valid() && IsRoot(role, root) && perm < 1024 && IsLeaf(perm) && v == va / PGSIZE && q == pa / PGSIZE
      modifies this
      ensures Valid() && Unmapped(old(mem), root, v, k) && MapsPages(mem, root, v, k, q, perm)
      ensures AddedTo(old(mem), old(role), mem, role, root, v, k, Consecutive(v, k, q, WithV(perm)))
      ensures BadRange(va, size) ==> r.MapPanic?
      ensures r.MapOk? ==> k == size / PGSIZE
      ensures r.MapFail? ==> k < size / PGSIZE && freelist == []
      ensures r.MapPanic? && !BadRange(va, size) ==>
        k < size / PGSIZE && (v + k >= MAXVPN || Lookup(old(mem), root, v + k).Some?)
      ensures r.MapOk? ==> |old(freelist)| <= |freelist| + 2 * k
      ensures r.MapFail? ==> |old(freelist)| < 2 * (k + 1)
    {
      k := 0;
      ghost var n := size / PGSIZE;
      AddedNone(mem, role, tab, root, v);
      assert Consecutive(v, 0, q, WithV(perm)) == map[];
      if va % PGSIZE != 0 || size % PGSIZE != 0 || size == 0 {
        AddedPages(old(mem), old(role), mem, role, root, v, k, q, perm);
        return MapPanic, k;
      }
      var a, p, last := va, pa, va + size - PGSIZE;
      while true
        invariant a == va + k * PGSIZE && p == pa + k * PGSIZE && k < n && last == va + (n - 1) * PGSIZE
        invariant Valid() && Unmapped(old(mem), root, v, k) && |old(freelist)| <= |freelist| + 2 * k
        invariant AddedTo(old(mem), old(role), mem, role, root, v, k, Consecutive(v, k, q, WithV(perm)))
        decreases n - k
      {
        PageStep(va, k);
        PageStep(pa, k);
        r := MapNext(root, a, p, perm, old(mem), old(role), v, q, k);
        if !r.MapOk? {
          AddedPages(old(mem), old(role), mem, role, root, v, k, q, perm);
          return r, k;
        }
        k := k + 1;
        if a == last {
          AddedPages(old(mem), old(role), mem, role, root, v, k, q, perm);
          return MapOk, k;
        }
        a, p := a + PGSIZE, p + PGSIZE;
      }
    }

    /** The same round, seen from where mappages started. */
    method MapNext(root: nat, a: nat, p: nat, perm: nat, ghost m0: Mem, ghost role0: Roles, ghost v: nat, ghost q: nat,
        ghost k: nat) returns (r: Mapped)
      requires Valid() && IsRoot(role0, root) && perm < 1024 && IsLeaf(perm) && v + k == a / PGSIZE
        && q + k == p / PGSIZE
      requires Unmapped(m0, root, v, k) && AddedTo(m0, role0, mem, role, root, v, k, Consecutive(v, k, q, WithV(perm)))
      modifies this
      ensures Valid() && AddedTo(m0, role0, mem, role, root, v, if r.MapOk? then k + 1 else k,
          Consecutive(v, if r.MapOk? then k + 1 else k, q, WithV(perm)))
      ensures r.MapOk? ==> Unmapped(m0, root, v, k + 1)
      ensures r.MapPanic? ==> v + k >= MAXVPN || Lookup(m0, root, v + k).Some?
      ensures r.MapFail? ==> freelist == []
      ensures |old(freelist)| <= |freelist| + 2 && (r.MapFail? ==> |old(freelist)| < 2)
    {
      ghost var mem1, role1, flags, d, vk, qk := mem, role, WithV(perm), 0, v + k, q + k;
      StillThere(m0, role0, mem, role, root, v, k, Consecutive(v, k, q, flags));
      r, d := MapPage(root, a, p, perm, vk, qk);
      ConsecutiveNext(v, k, d, q, flags);
      ghost var now := Consecutive(v, k + d, q, flags);
      AddedNext(m0, mem1, mem, role0, role1, role, root, v, k, Consecutive(v, k, q, flags), d,
          Consecutive(vk, d, qk, flags), now);
      if r.MapOk? {
        HoleNext(m0, root, v, k);
      }
    }

    /** uvmunmap gives the page at vpn back, to the free list or to its caller. */
    method ReleasePage(root: nat, vpn: nat, ghost t: nat, p: nat, doFree: bool)
      requires Valid() && IsRoot(role, root) && vpn < MAXVPN && TableAt(mem, root, vpn, 0) == Some(t)
      requires doFree ==> p in role && role[p] == User(root, vpn)
      modifies this
      ensures Valid() && tab == old(tab) && SameMaps(old(mem), mem, old(role)) && TableAt(mem, root, vpn, 0) == Some(t)
      ensures role == if p in old(role)
        && old(role)[p] == User(root, vpn) then old(role)[p := if doFree then Free else Held] else old(role)
      ensures mem == old(mem) || (p in mem && mem == old(mem)[p := mem[p]] && p in old(role) && role[p] != old(role)[p])
    {
      SameMapsRefl(mem, role);
      if p in role && role[p] == User(root, vpn) {
        TakeUser(mem, role, tab, freelist, p);
        role := role[p := Held];
      }
      if doFree {
        Kfree(p);
        TableKept(old(mem), old(role), tab, mem, root, vpn, p);
        SameMapsFrom(old(mem), mem, old(role), p, Held);
      }
    }

    /** *pte = 0 once the page is given back. */
    method ClearEntry(root: nat, vpn: nat, t: nat, doFree: bool)
      requires Valid() && IsRoot(role, root) && vpn < MAXVPN && TableAt(mem, root, vpn, 0) == Some(t)
        && Lookup(mem, root, vpn).Some?
      requires doFree ==> OwnedAt(mem, role, root, vpn)
      modifies this
      ensures Valid() && UnmappedTo(old(mem), old(role), mem, role, root, vpn, 1, doFree)
    {
      ghost var to := if doFree then Free else Held;
      TableRole(mem, role, tab, root, vpn, 0);
      var p := Ppn(mem[t][Index(0, vpn)]);
      ReleasePage(root, vpn, t, p, doFree);
      ghost var mem1 := mem;
      GaveBackOne(old(mem), old(role), tab, role, root, vpn, to);
      GaveBackRoots(old(role), role, root, vpn, 1, to);
      assert RootKept(old(role), role, root) && SameEntry(old(mem), mem, old(role), root, vpn);
      NoUserThere(mem, role, tab, root, vpn, 0);
      SetPte(root, vpn, t, 0);
      SameRewritten(old(mem), mem1, mem, old(role), role, root, vpn, 1, map[]);
      UnmapData(old(mem), old(role), tab, mem1, mem, role, p, t);
    }

    /** One round of uvmunmap's loop. */
    method UnmapPage(root: nat, a: nat, doFree: bool, ghost v: nat) returns (ok: bool)
      requires Valid() && IsRoot(role, root) && v == a / PGSIZE
      requires doFree ==> OwnedAt(mem, role, root, v)
      modifies this
      ensures ok <==> v < MAXVPN && Lookup(old(mem), root, v).Some?
      ensures ok ==> Valid() && UnmappedTo(old(mem), old(role), mem, role, root, v, 1, doFree)
    {
      var w := Walk(root, a, false, v);
      if !w.Slot? {
        return false;
      }
      TableRole(mem, role, tab, root, v, 0);
      var e := mem[w.table][w.index];
      assert EntryOk(mem, role, w.table, w.index);
      LeafFlags(e);
      if !Present(e) || Flags(e) == PTE_V {
        return false;
      }
      ClearEntry(root, a / PGSIZE, w.table, doFree);
      return true;
    }

    /** uvmunmap(): ok is false where it panics. It clears exactly the range, or
        panics because a page of the range is not mapped. */
    method Uvmunmap(root: nat, va: nat, npages: nat, doFree: bool) returns (ok: bool)
      requires Valid() && IsRoot(role, root)
      requires doFree ==> OwnedRange(mem, role, root, va / PGSIZE, npages)
      modifies this
      ensures ok <==> va % PGSIZE == 0 && MappedAll(old(mem), root, va / PGSIZE, npages)
      ensures ok ==> Valid() && UnmappedTo(old(mem), old(role), mem, role, root, va / PGSIZE, npages, doFree)
    {
      if va % PGSIZE != 0 {
        return false;
      }
      ghost var v := va / PGSIZE;
      var a: nat, k := va, 0;
      UnmappedNone(mem, role, tab, root, v, doFree);
      while a < va + npages * PGSIZE
        invariant a == va + k * PGSIZE && k <= npages && Valid() && MappedAll(old(mem), root, v, k)
        invariant UnmappedTo(old(mem), old(role), mem, role, root, v, k, doFree)
      {
        ghost var mem1, role1 := mem, role;
        PageStep(va, k);
        if doFree {
          StillOwned(old(mem), mem, old(role), role, root, v, k, npages);
        }
        StillRoot(old(mem), old(role), mem, role, root, v, k, doFree);
        var done := UnmapPage(root, a, doFree, v + k);
        assert !MappedAll(old(mem), root, v, npages) || MappedAt(old(mem), root, v, npages, v + k);
        if !done {
          return false;
        }
        MappedNext(old(mem), root, v, k);
        UnmappedNext(old(mem), mem1, mem, old(role), role1, role, root, v, k, doFree);
        a, k := a + PGSIZE, k + 1;
      }
      return true;
    }

    /** uvmcreate(): an address space that maps nothing. */
    method Uvmcreate() returns (r: Option<nat>)
      requires Safe()
      modifies this
      ensures Safe() && (r.None? <==> old(freelist) == [])
      ensures r.None? ==> mem == old(mem) && role == old(role) && freelist == old(freelist)
      ensures r.Some? ==> FreshSpace(old(mem), old(role), mem, role, r.value) && OnlyMaps(mem, r.value, map[])
      ensures |old(freelist)| == |freelist| + if r.Some? then 1 else 0
    {
      r := KallocFilled(seq(ENTRIES, _ => 0));
      if r.Some? {
        ghost var p := r.value;
        NewRoot(mem, role, tab, freelist, p);
        NewRootOwned(old(mem), mem, old(role), p);
        assert old(role)[p := Table(p, 2, 0)] == role[p := Table(p, 2, 0)];
        FreshRoot(old(mem), old(role), old(tab), mem, role[p := Table(p, 2, 0)], p);
        role, tab := role[p := Table(p, 2, 0)], tab[Loc(p, 2, 0) := p];
      }
    }

    /** mappages() of one page: either it maps the page or it changes no map. */
    method MapOne(root: nat, a: nat, q: nat, perm: nat, ghost v: nat) returns (r: Mapped)
      requires Valid() && IsRoot(role, root) && perm < 1024 && IsLeaf(perm) && a % PGSIZE == 0 && v == a / PGSIZE
      modifies this
      ensures Valid() && IsRoot(role, root)
      ensures r.MapOk? ==>
        v < MAXVPN && Lookup(old(mem), root, v).None? && Lookup(mem, root, v) == Some(Pte(q, WithV(perm)))
      ensures r.MapOk? ==> AddedTo(old(mem), old(role), mem, role, root, v, 1, map[v := Pte(q, WithV(perm))])
      ensures r.MapFail? ==> AddedTo(old(mem), old(role), mem, role, root, v, 0, map[]) && freelist == []
      ensures r.MapPanic? ==> v >= MAXVPN || Lookup(old(mem), root, v).Some?
      ensures r.MapOk? ==> |old(freelist)| <= |freelist| + 2
      ensures r.MapFail? ==> |old(freelist)| < 2
    {
      ghost var k := 0;
      PageStep(0, q);
      r, k := Mappages(root, a, PGSIZE, q * PGSIZE, perm, v, q);
      ghost var now := Consecutive(v, k, q, WithV(perm));
      OnePage(v, q, WithV(perm));
      assert k == 0 ==> now == map[];
      StillThere(old(mem), old(role), mem, role, root, v, k, now);
      assert UnmappedAt(old(mem), root, v, k, v) && RewrittenAt(old(mem), mem, old(role), root, v, k, now, root, v);
    }

    /** kalloc a page, fill it and map it at a; give it back if mapping fails. */
    method InstallPage(root: nat, a: nat, page: Page, perm: nat, ghost v: nat) returns (r: Mapped, ghost p: nat)
      requires Valid() && IsRoot(role, root) && |page| == ENTRIES && perm < 1024 && IsLeaf(perm) && a % PGSIZE == 0
        && v == a / PGSIZE
      modifies this
      ensures Valid()
      ensures r.MapOk? ==> v < MAXVPN && Lookup(old(mem), root, v).None? && p in mem && mem[p] == page
      ensures r.MapOk? ==> GrewTo(old(mem), old(role), mem, role, root, v, 1, map[v := Pte(p, WithV(perm))])
      ensures r.MapFail? ==> AddedTo(old(mem), old(role), mem, role, root, v, 0, map[])
      ensures r.MapPanic? ==> v >= MAXVPN || Lookup(old(mem), root, v).Some?
      ensures r.MapOk? ==> |old(freelist)| <= |freelist| + 3
      ensures r.MapFail? ==> |old(freelist)| < 3
    {
      p := 0;
      var m := KallocFilled(page);
      if m.None? {
        AddedNone(mem, role, tab, root, v);
        return MapFail, p;
      }
      var q := m.value;
      p := q;
      ghost var mem1, role1 := mem, role;
      assert SameEntry(old(mem), mem1, old(role), root, v);
      r := MapOne(root, a, q, perm, v);
      if r.MapFail? {
        ghost var mem2, role2 := mem, role;
        HeldKept(mem1, role1, mem, role, root, v, 0, map[], q);
        Kfree(q);
        InstallUndone(old(mem), mem1, mem2, mem, old(role), old(tab), role1, role2, root, v, q);
      } else if r.MapOk? {
        PteRoundTrip(q, WithV(perm));
        InstallGrew(old(mem), mem1, mem, old(role), old(tab), role1, role, root, v, q, map[v := Pte(q, WithV(perm))]);
        Adopt(mem, role, tab, freelist, root, v, q);
        role := role[q := User(root, v)];
      }
    }

    /** One round of uvmalloc or uvmcopy: one more page at the end of the k pages
        from v on that were added since the state (m0, role0). */
    method GrowPage(root: nat, a: nat, page: Page, perm: nat, ghost m0: Mem, ghost role0: Roles, ghost v: nat,
        ghost k: nat, ghost now: map<nat, nat>) returns (r: Mapped, ghost d: nat, ghost e: map<nat, nat>)
      requires Valid() && IsRoot(role0, root) && |page| == ENTRIES && perm < 1024 && IsLeaf(perm) && a % PGSIZE == 0
        && v + k == a / PGSIZE
      requires GrewTo(m0, role0, mem, role, root, v, k, now) && Unmapped(m0, root, v, k)
      modifies this
      ensures Valid() && d == (if r.MapOk? then 1 else 0) && Unmapped(m0, root, v, k + d)
      ensures !r.MapPanic? ==>
        GrewTo(old(mem), old(role), mem, role, root, v + k, d, e)
          && GrewTo(m0, role0, mem, role, root, v, k + d, now + e)
      ensures r.MapOk? ==> v + k < MAXVPN && PageOf(mem, root, v + k) == Some((WithV(perm), page))
      ensures r.MapPanic? ==> v + k >= MAXVPN || Lookup(m0, root, v + k).Some?
      ensures r.MapOk? ==> |old(freelist)| <= |freelist| + 3
      ensures r.MapFail? ==> |old(freelist)| < 3
    {
      ghost var vk, p, flags := v + k, 0, WithV(perm);
      GrewStill(m0, role0, mem, role, root, v, k, now);
      r, p := InstallPage(root, a, page, perm, vk);
      d, e := if r.MapOk? then 1 else 0, if r.MapOk? then map[vk := Pte(p, flags)] else map[];
      if r.MapFail? {
        GrewNone(old(mem), old(role), mem, role, root, vk);
      }
      if !r.MapPanic? {
        GrewNext(m0, old(mem), mem, role0, old(role), role, root, v, k, now, d, e, now + e);
      }
      if r.MapOk? {
        PteRoundTrip(p, flags);
        assert RewrittenAt(old(mem), mem, old(role), root, vk, 1, e, root, vk);
        HoleNext(m0, root, v, k);
      }
    }

    /** uvmdealloc(): None where uvmunmap panics. */
    method Uvmdealloc(root: nat, oldsz: nat, newsz: nat) returns (r: Option<nat>)
      requires Valid() && IsRoot(role, root) && oldsz <= MAXVA
      requires newsz < oldsz ==> OwnedRange(mem, role, root, Pages(newsz), Pages(oldsz) - Pages(newsz))
      modifies this
      ensures newsz >= oldsz ==> r == Some(oldsz) && mem == old(mem) && role == old(role) && freelist == old(freelist)
      ensures newsz < oldsz ==>
        (r == Some(newsz) <==> MappedAll(old(mem), root, Pages(newsz), Pages(oldsz) - Pages(newsz)))
      ensures newsz < oldsz ==> r == None || r == Some(newsz)
      ensures r.Some? ==> Valid()
      ensures newsz < oldsz && r.Some? ==>
        UnmappedTo(old(mem), old(role), mem, role, root, Pages(newsz), Pages(oldsz) - Pages(newsz), true)
    {
      if newsz >= oldsz {
        return Some(oldsz);
      }
      PageStep(0, Pages(newsz));
      UnmappedNone(mem, role, tab, root, Pages(newsz), true);
      if RoundUp(newsz) < RoundUp(oldsz) {
        var npages := (RoundUp(oldsz) - RoundUp(newsz)) / PGSIZE;
        PageStep(0, Pages(oldsz) - Pages(newsz));
        var ok := Uvmunmap(root, RoundUp(newsz), npages, true);
        if !ok {
          return None;
        }
      }
      return Some(newsz);
    }

    /** uvmalloc(): success adds zeroed pages that were free before; running out
        of memory leaves every map as it was and keeps no page but page-table
        pages; it panics only if a page of the range is mapped already or lies
        beyond MAXVA. */
    method Uvmalloc(root: nat, oldsz: nat, newsz: nat, xperm: nat) returns (r: Sized, ghost now: map<nat, nat>)
      requires Safe() && IsRoot(role, root) && oldsz <= MAXVA && xperm in {0, PTE_W, PTE_X, PTE_W + PTE_X}
      modifies this
      ensures !r.SizePanic? ==> Safe()
      ensures newsz < oldsz ==> r == Size(oldsz) && mem == old(mem) && role == old(role) && freelist == old(freelist)
      ensures newsz >= oldsz && r.Size? ==>
        && r.sz == newsz && Unmapped(old(mem), root, Pages(oldsz), Pages(newsz) - Pages(oldsz))
        && GrewTo(old(mem), old(role), mem, role, root, Pages(oldsz), Pages(newsz) - Pages(oldsz), now)
        && Filled(mem, root, Pages(oldsz), Pages(newsz) - Pages(oldsz), PTE_V + PTE_R + PTE_U + xperm, ZERO_PAGE)
        && UserBits(PTE_V + PTE_R + PTE_U + xperm, xperm)
      ensures r.NoMemory? ==> AddedTo(old(mem), old(role), mem, role, root, Pages(oldsz), 0, map[])
      ensures r.SizePanic? ==> !Unmapped(old(mem), root, Pages(oldsz), Pages(newsz) - Pages(oldsz))
      ensures r.NoMemory? ==> |old(freelist)| < 3 * (Pages(newsz) - Pages(oldsz))
    {
      hide WithV, UserBits, IsLeaf;
      now := map[];
      if newsz < oldsz {
        return Size(oldsz), now;
      }
      var a: nat := RoundUp(oldsz);
      ghost var v, n, k, flags := Pages(oldsz), Pages(newsz) - Pages(oldsz), 0, PTE_V + PTE_R + PTE_U + xperm;
      UserFlags(xperm);
      AddedNone(mem, role, tab, root, v);
      GrewNone(mem, role, mem, role, root, v);
      while a < newsz
        invariant a == (v + k) * PGSIZE && k <= n && Valid() && Unmapped(old(mem), root, v, k)
          && |old(freelist)| <= |freelist| + 3 * k
        invariant GrewTo(old(mem), old(role), mem, role, root, v, k, now) && Filled(mem, root, v, k, flags, ZERO_PAGE)
        decreases n - k
      {
        ghost var mem1, role1, tab1, d, e := mem, role, tab, 0, map[];
        PageStep(0, v + k);
        var m: Mapped;
        m, d, e := GrowPage(root, a, ZERO_PAGE, PTE_R + PTE_U + xperm, old(mem), old(role), v, k, now);
        if m.MapPanic? {
          assert !Unmapped(old(mem), root, v, n) || UnmappedAt(old(mem), root, v, n, v + k);
          return SizePanic, now;
        }
        if m.MapFail? {
          Shrink(root, a, RoundUp(oldsz), old(mem), old(role), old(tab), v, k, now + e);
          AddedOwned(old(mem), old(role), mem, role, root, v);
          return NoMemory, now;
        }
        FilledNext(old(mem), mem1, mem, old(role), role1, tab1, role, root, v, k, now, e, flags, ZERO_PAGE);
        now := now + e;
        a, k := a + PGSIZE, k + 1;
      }
      GrewOwned(old(mem), old(role), mem, role, root, v, k, now);
      return Size(newsz), now;
    }

    /** uvmalloc's error path: uvmdealloc(pagetable, a, oldsz). */
    method Shrink(root: nat, a: nat, oldsz: nat, ghost mem0: Mem, ghost role0: Roles, ghost tab0: Tab, ghost v: nat,
        ghost k: nat, ghost now: map<nat, nat>)
      requires Valid() && TreesOk(mem0, role0, tab0) && IsRoot(role0, root) && Unmapped(mem0, root, v, k)
      requires GrewTo(mem0, role0, mem, role, root, v, k, now) && a == (v + k) * PGSIZE && oldsz == v * PGSIZE <= MAXVA
      modifies this
      ensures Valid() && AddedTo(mem0, role0, mem, role, root, v, 0, map[])
    {
      ghost var mem1, role1 := mem, role;
      RoundedPages(v);
      RoundedPages(v + k);
      assert k > 0 ==> UnmappedAt(mem0, root, v, k, v + k - 1);
      GrewRange(mem0, role0, mem, role, root, v, k, now);
      var r := Uvmdealloc(root, a, oldsz);
      if k == 0 {
        UnmappedNone(mem, role, tab, root, v, true);
      }
      GrewUndo(mem0, mem1, mem, role0, tab0, role1, role, root, v, k, now);
    }

    /** uvmcopy's look at the parent: the page at a, its flags and contents. */
    method ReadPage(root: nat, a: nat, ghost v: nat) returns (r: Option<(nat, Page)>)
      requires Valid() && IsRoot(role, root) && v == a / PGSIZE && OwnedAt(mem, role, root, v)
      modifies this
      ensures mem == old(mem) && role == old(role) && freelist == old(freelist) && tab == old(tab)
      ensures v < MAXVPN ==> r == PageOf(mem, root, v) && r.Some? == Lookup(mem, root, v).Some?
      ensures v >= MAXVPN ==> r.None?
      ensures r.Some? ==> r.value.0 < 1024 && IsLeaf(r.value.0) && Present(r.value.0) && |r.value.1| == ENTRIES
    {
      var w := Walk(root, a, false, v);
      if !w.Slot? {
        return None;
      }
      TableRole(mem, role, tab, root, v, 0);
      var e := mem[w.table][w.index];
      if !Present(e) {
        return None;
      }
      assert EntryOk(mem, role, w.table, w.index) && PageOk(mem, role, tab, Ppn(e));
      FlagsOf(e);
      return Some((Flags(e), mem[Ppn(e)]));
    }

    /** One round of uvmcopy's loop, with its error path. */
    method CopyPage(from: nat, to: nat, i: nat, ghost m0: Mem, ghost role0: Roles, ghost tab0: Tab, ghost k: nat,
        ghost now: map<nat, nat>) returns (r: Mapped, ghost now': map<nat, nat>)
      requires Valid() && TreesOk(m0, role0, tab0) && Owned(m0, role0) && IsRoot(role0, from) && IsRoot(role0, to)
        && i == k * PGSIZE && k < FRAMEVPN
      requires GrewTo(m0, role0, mem, role, to, 0, k, now) && Copied(m0, from, mem, to, k) && Unmapped(m0, to, 0, k)
      modifies this
      ensures !r.MapPanic? ==> Valid()
      ensures r.MapOk? ==> GrewTo(m0, role0, mem, role, to, 0, k + 1, now')
      ensures r.MapOk? ==> Copied(m0, from, mem, to, k + 1) && Unmapped(m0, to, 0, k + 1)
      ensures r.MapFail? ==> AddedTo(m0, role0, mem, role, to, 0, 0, map[])
      ensures r.MapPanic? ==> Lookup(m0, from, k).None? || Lookup(m0, to, k).Some?
      ensures r.MapOk? ==> |old(freelist)| <= |freelist| + 3
      ensures r.MapFail? ==> |old(freelist)| < 3
    {
      now' := now;
      PageStep(0, k);
      ParentStays(m0, role0, tab0, mem, role, from, to, k, now);
      var page := ReadPage(from, i, k);
      if page.None? {
        return MapPanic, now';
      }
      ghost var d, e := 0, map[];
      r, d, e := GrowPage(to, i, page.value.1, page.value.0, m0, role0, 0, k, now);
      now' := now + e;
      if r.MapFail? {
        CopyFailed(to, i / PGSIZE, m0, role0, tab0, k, now');
      } else if r.MapOk? {
        CopiedNext(m0, old(mem), mem, role0, old(role), old(tab), role, from, to, k, now, e);
      }
    }

    /** uvmcopy(): success gives the new address space its own copy of every page
        with the same flags; running out of memory leaves every map as it was;
        it panics only if a page is missing in the old address space or present
        in the new one. */
    method Uvmcopy(from: nat, to: nat, sz: nat) returns (r: Mapped, ghost now: map<nat, nat>)
      requires Safe() && IsRoot(role, from) && IsRoot(role, to) && Pages(sz) <= FRAMEVPN
      modifies this
      ensures !r.MapPanic? ==> Safe()
      ensures r.MapOk? ==>
        GrewTo(old(mem), old(role), mem, role, to, 0, Pages(sz), now) && Copied(old(mem), from, mem, to, Pages(sz))
      ensures r.MapOk? ==> Unmapped(old(mem), to, 0, Pages(sz))
      ensures r.MapFail? ==> AddedTo(old(mem), old(role), mem, role, to, 0, 0, map[])
      ensures r.MapPanic? ==> !MappedAll(old(mem), from, 0, Pages(sz)) || !Unmapped(old(mem), to, 0, Pages(sz))
      ensures r.MapFail? ==> |old(freelist)| < 3 * Pages(sz)
      ensures r.MapOk? ==> |old(freelist)| <= |freelist| + 3 * Pages(sz)
    {
      now := map[];
      ghost var n := Pages(sz);
      var i, k: nat := 0, 0;
      AddedNone(mem, role, tab, to, 0);
      GrewNone(mem, role, mem, role, to, 0);
      while i < sz
        invariant i == k * PGSIZE && k <= n && Valid() && Unmapped(old(mem), to, 0, k)
          && |old(freelist)| <= |freelist| + 3 * k
        invariant GrewTo(old(mem), old(role), mem, role, to, 0, k, now) && Copied(old(mem), from, mem, to, k)
        decreases n - k
      {
        PageStep(0, k);
        assert !MappedAll(old(mem), from, 0, n) || MappedAt(old(mem), from, 0, n, k);
        assert !Unmapped(old(mem), to, 0, n) || UnmappedAt(old(mem), to, 0, n, k);
        r, now := CopyPage(from, to, i, old(mem), old(role), old(tab), k, now);
        if r.MapPanic? {
          return MapPanic, now;
        }
        if r.MapFail? {
          AddedOwned(old(mem), old(role), mem, role, to, 0);
          return MapFail, now;
        }
        i, k := i + PGSIZE, k + 1;
      }
      GrewOwned(old(mem), old(role), mem, role, to, 0, k, now);
      return MapOk, now;
    }

    /** uvmcopy's error path: uvmunmap(new, 0, i / PGSIZE, 1). */
    method CopyFailed(to: nat, npages: nat, ghost m0: Mem, ghost role0: Roles, ghost tab0: Tab, ghost k: nat,
        ghost now: map<nat, nat>)
      requires Valid() && TreesOk(m0, role0, tab0) && IsRoot(role0, to) && Unmapped(m0, to, 0, k)
        && npages == k <= MAXVPN
      requires GrewTo(m0, role0, mem, role, to, 0, k, now)
      modifies this
      ensures Valid() && AddedTo(m0, role0, mem, role, to, 0, 0, map[])
    {
      ghost var mem1, role1 := mem, role;
      GrewRange(m0, role0, mem, role, to, 0, k, now);
      var ok := Uvmunmap(to, 0, npages, true);
      GrewUndo(m0, mem1, mem, role0, tab0, role1, role, to, 0, k, now);
    }

    /** freewalk(): ok is false where it panics on a leaf, which lp and li name.
        Otherwise it frees exactly the tables of the subtree. */
    method Freewalk(t: nat, ghost root: nat, ghost level: nat, ghost prefix: nat)
        returns (ok: bool, ghost lp: nat, ghost li: nat)
      requires Sound() && Start(mem, role, tab, root, level, prefix, t)
      modifies this
      ensures ok ==> Sound() && tab == old(tab) && FreedSub(old(mem), old(role), mem, role, root, level, prefix)
      ensures ok ==> NoLeaf(old(mem), old(role), root, level, prefix)
      ensures !ok ==> LeafAt(old(mem), old(role), root, level, prefix, lp, li)
      decreases level
    {
      lp, li := t, 0;
      BeginFree(t, root, level, prefix);
      var i := 0;
      while i < ENTRIES
        invariant i <= ENTRIES && Sound() && tab == old(tab)
        invariant Progress(old(mem), old(role), mem, role, root, level, prefix, t, i)
      {
        assert ShutAt(old(mem), mem, t, i, i) && EntryOk(old(mem), old(role), t, i);
        var pte := mem[t][i];
        if Present(pte) && !IsLeaf(pte) {
          ghost var l, pf, mem1, role1 := level - 1, prefix * ENTRIES + i, mem, role;
          ChildReady(old(mem), old(role), tab, mem, role, root, level, prefix, t, i, l, pf);
          ok, lp, li := Freewalk(Ppn(pte), root, l, pf);
          if !ok {
            LeafFound(old(mem), old(role), old(tab), mem1, role1, root, level, prefix, t, i, l, pf, lp, li);
            return;
          }
          ClearSlot(t, i, root, level, prefix, old(mem), old(role), mem1, role1, l, pf);
        } else if Present(pte) {
          return false, t, i;
        } else {
          EntrySkipped(old(mem), old(role), tab, mem, role, root, level, prefix, t, i);
        }
        i := i + 1;
      }
      EndFree(t, root, level, prefix, old(mem), old(role));
      ok := true;
    }

    /** Ghost: t leaves its tree. */
    ghost method BeginFree(t: nat, root: nat, level: nat, prefix: nat)
      requires Sound() && Start(mem, role, tab, root, level, prefix, t)
      modifies `role
      ensures Sound() && Progress(mem, old(role), mem, role, root, level, prefix, t, 0)
    {
      StartDying(mem, role, tab, t);
      Begun(mem, role, tab, root, level, prefix, t);
      ghost var role' := DyingRole(role, t);
      forall q: nat ensures FreeOk(freelist, role', q) {
        assert FreeOk(freelist, role, q);
      }
      role := role';
    }

    /** pagetable[i] = 0, once the child is gone. */
    method ClearSlot(t: nat, i: nat, ghost root: nat, ghost level: nat, ghost prefix: nat, ghost m0: Mem,
        ghost role0: Roles, ghost m1: Mem, ghost role1: Roles, ghost l: nat, ghost pf: nat)
      requires Sound() && Start(m0, role0, tab, root, level, prefix, t)
        && Progress(m0, role0, m1, role1, root, level, prefix, t, i)
      requires i < ENTRIES && level == l + 1 && pf == prefix * ENTRIES + i
      requires FreedSub(m1, role1, mem, role, root, l, pf) && NoLeaf(m1, role1, root, l, pf)
      modifies `mem
      ensures Sound() && Progress(m0, role0, mem, role, root, level, prefix, t, i + 1)
    {
      ChildFreed(m0, role0, tab, m1, role1, mem, role, root, level, prefix, t, i, l, pf);
      ChildNoLeaf(m0, role0, tab, m1, role1, root, level, prefix, t, i, l, pf);
      assert PageOk(mem, role, tab, t);
      ClearChild(mem, role, tab, t, i, l, pf);
      ShutSame(m0, m1, mem, t, i);
      EntryShut(m0, mem, t, i);
      PartClear(m0, role0, mem, role, root, level, prefix, t, i + 1, SetEntry(mem[t], i, 0));
      mem := mem[t := SetEntry(mem[t], i, 0)];
    }

    /** kfree((void*)pagetable) at the end of freewalk. */
    method EndFree(t: nat, ghost root: nat, ghost level: nat, ghost prefix: nat, ghost m0: Mem, ghost role0: Roles)
      requires Sound() && Start(m0, role0, tab, root, level, prefix, t)
        && Progress(m0, role0, mem, role, root, level, prefix, t, ENTRIES)
      modifies this
      ensures Sound() && tab == old(tab) && FreedSub(m0, role0, mem, role, root, level, prefix)
        && NoLeaf(m0, role0, root, level, prefix)
    {
      AllShut(m0, role0, tab, mem, role, root, level, prefix, t);
      FinishDying(mem, role, tab, t);
      ghost var role' := role[t := Held];
      forall q: nat ensures FreeOk(freelist, role', q) {
        assert FreeOk(freelist, role, q);
      }
      role := role';
      Kfree(t);
      TableFreed(m0, role0, tab, old(mem), old(role), mem, root, level, prefix, t);
      assert role == old(role)[t := Free];
    }

    /** freewalk() on the root of an address space. */
    method FreeRoot(root: nat) returns (ok: bool)
      requires Valid() && IsRoot(role, root)
      modifies this
      ensures ok <==> Unmapped(old(mem), root, 0, MAXVPN)
      ensures ok ==> Valid() && TornDown(old(mem), old(role), mem, role, root)
    {
      ghost var lp, li;
      LeafIsMapping(mem, role, tab, root);
      Disowned(mem, role, tab, freelist, root);
      role := DisownedRole(role, root);
      ghost var role1 := role;
      LeafIsMapping(mem, role, tab, root);
      RootStart(mem, role, tab, root);
      ok, lp, li := Freewalk(root, root, 2, 0);
      if ok {
        FreedWhole(old(mem), role1, old(tab), mem, role, root);
      }
    }

    /** uvmfree(): frees everything the address space owns, or panics because a
        page below sz is not mapped or something at or above sz still is. */
    method Uvmfree(root: nat, sz: nat) returns (ok: bool)
      requires Safe() && IsRoot(role, root) && Pages(sz) <= FRAMEVPN
      modifies this
      ensures ok <==> MappedAll(old(mem), root, 0, Pages(sz)) && Unmapped(old(mem), root, Pages(sz), MAXVPN - Pages(sz))
      ensures ok ==> Safe() && TornDown(old(mem), old(role), mem, role, root)
    {
      UnmappedNone(mem, role, tab, root, 0, true);
      if sz > 0 {
        OwnedPart(mem, role, root, 0, Pages(sz));
        PageStep(0, Pages(sz));
        ok := Uvmunmap(root, 0, RoundUp(sz) / PGSIZE, true);
        if !ok {
          return;
        }
      }
      ghost var mem1, role1, tab1, n := mem, role, tab, Pages(sz);
      StillRoot(old(mem), old(role), mem, role, root, 0, n, true);
      LeftOver(old(mem), old(role), mem, role, root, n);
      ok := FreeRoot(root);
      if ok {
        UnmapThenFree(old(mem), old(role), old(tab), mem1, role1, tab1, mem, role, root, 0, n);
        TornOwned(old(mem), old(role), mem, role, root);
      }
    }

    /** uvmfree(pagetable, 0) where proc_pagetable gives up. */
    method GiveUp(root: nat, ghost m0: Mem, ghost role0: Roles, ghost tab0: Tab)
      requires Safe() && TreesOk(m0, role0, tab0) && NoneDying(role0) && FreshSpace(m0, role0, mem, role, root)
        && OnlyMaps(mem, root, map[])
      modifies this
      ensures Safe() && role == role0 && SameMaps(m0, mem, role0) && DataKept(m0, role0, mem, role)
    {
      ghost var mem1, role1 := mem, role;
      forall w: nat ensures UnmappedAt(mem, root, 0, MAXVPN, w) {
        assert OnlyMapsAt(mem, root, map[], w);
      }
      var ok := Uvmfree(root, 0);
      FreshTorn(m0, role0, tab0, mem1, role1, mem, role, root);
    }

    /** proc_pagetable(): tf is the process's trapframe page and tramp the page of
        the trampoline code. Failure gives every page back. */
    method ProcPagetable(tf: nat, tramp: nat) returns (r: Option<nat>)
      requires Safe() && tf in role && role[tf] == Held && tramp !in role
      modifies this
      ensures Safe()
      ensures r.None? ==>
        role == old(role) && SameMaps(old(mem), mem, old(role)) && DataKept(old(mem), old(role), mem, role)
      ensures r.Some? ==>
        && FreshSpace(old(mem), old(role), mem, role, r.value)
        && OnlyMaps(mem, r.value, ProcMaps(tf, tramp)) && HighEntries(mem, r.value, tf, tramp)
      ensures if r.Some? then |old(freelist)| <= |freelist| + 5 else |old(freelist)| < 5
    {
      SameMapsRefl(mem, role);
      DataRefl(mem, role, tab);
      r := Uvmcreate();
      if r.None? {
        return;
      }
      var root := r.value;
      var m := MapHigh(root, TRAMPVPN * PGSIZE, tramp, PTE_R + PTE_X, TRAMPVPN, old(mem), old(role), map[]);
      if !m.MapOk? {
        GiveUp(root, old(mem), old(role), old(tab));
        return None;
      }
      ghost var now := map[TRAMPVPN := Pte(tramp, PTE_V + PTE_R + PTE_X)];
      m := MapHigh(root, FRAMEVPN * PGSIZE, tf, PTE_R + PTE_W, FRAMEVPN, old(mem), old(role), now);
      if !m.MapOk? {
        assert FreshAt(old(role), role, root, tramp);
        DropTrampoline(root, tramp, old(mem), old(role), now);
        GiveUp(root, old(mem), old(role), old(tab));
        return None;
      }
      assert now[FRAMEVPN := Pte(tf, WithV(PTE_R + PTE_W))] == ProcMaps(tf, tramp);
      HighMade(mem, root, tf, tramp);
    }

    /** mappages() of a page above user memory, where nothing is mapped yet. */
    method MapHigh(root: nat, a: nat, q: nat, perm: nat, ghost v: nat, ghost m0: Mem, ghost role0: Roles,
        ghost now: map<nat, nat>) returns (r: Mapped)
      requires Safe() && FreshSpace(m0, role0, mem, role, root) && OnlyMaps(mem, root, now)
      requires perm < 1024 && IsLeaf(perm) && FRAMEVPN <= v < MAXVPN && v !in now && a == v * PGSIZE
      modifies this
      ensures Safe() && !r.MapPanic? && FreshSpace(m0, role0, mem, role, root)
      ensures OnlyMaps(mem, root, if r.MapOk? then now[v := Pte(q, WithV(perm))] else now)
      ensures if r.MapOk? then |old(freelist)| <= |freelist| + 2 else |old(freelist)| < 2
    {
      PageStep(0, v);
      assert OnlyMapsAt(mem, root, now, v);
      ghost var mem1, role1 := mem, role;
      r := MapOne(root, a, q, perm, v);
      ghost var k, e: map<nat, nat> := if r.MapOk? then 1 else 0, if r.MapOk? then map[v := Pte(q, WithV(perm))]
        else map[];
      FreshAdded(m0, role0, mem1, role1, mem, role, root, v, k, e);
      HighOwned(mem1, role1, mem, role, root, v, k, e);
      OnlyMapsThen(mem1, mem, role1, root, v, k, e, now, if r.MapOk? then now[v := Pte(q, WithV(perm))] else now);
    }

    /** uvmunmap(pagetable, TRAMPOLINE or TRAPFRAME, 1, 0). */
    method UnmapHigh(root: nat, va: nat, ghost v: nat) returns (ok: bool)
      requires Safe() && IsRoot(role, root) && FRAMEVPN <= v < MAXVPN && va == v * PGSIZE && NotUser(mem, role, root, v)
      modifies this
      ensures ok <==> Lookup(old(mem), root, v).Some?
      ensures ok ==> Safe() && role == old(role) && UnmappedTo(old(mem), role, mem, role, root, v, 1, false)
    {
      PageStep(0, v);
      assert MappedAll(mem, root, v, 1) <==> Lookup(mem, root, v).Some? by {
        if MappedAll(mem, root, v, 1) { assert MappedAt(mem, root, v, 1, v); }
        if Lookup(mem, root, v).Some? {
          forall w: nat ensures MappedAt(mem, root, v, 1, w) {
          }
        }
      }
      ok := Uvmunmap(root, va, 1, false);
      if ok {
        NothingGiven(old(mem), old(role), old(tab), mem, role, root, v);
        UnmappedOwned(old(mem), old(role), mem, role, root, v, 1, false);
      }
    }

    method DropTrampoline(root: nat, ghost tramp: nat, ghost m0: Mem, ghost role0: Roles, ghost now: map<nat, nat>)
      requires Safe() && FreshSpace(m0, role0, mem, role, root) && OnlyMaps(mem, root, now)
      requires now == map[TRAMPVPN := Pte(tramp, PTE_V + PTE_R + PTE_X)] && tramp !in role
      modifies this
      ensures Safe() && FreshSpace(m0, role0, mem, role, root) && OnlyMaps(mem, root, map[])
    {
      ghost var mem1 := mem;
      assert OnlyMapsAt(mem, root, now, TRAMPVPN);
      PteRoundTrip(tramp, PTE_V + PTE_R + PTE_X);
      var ok := UnmapHigh(root, TRAMPVPN * PGSIZE, TRAMPVPN);
      FreshUnmapped(m0, role0, mem1, role, mem, root, TRAMPVPN, 1);
      OnlyMapsThen(mem1, mem, role, root, TRAMPVPN, 1, map[], now, map[]);
    }

    /** proc_freepagetable(): frees the address space but neither the trampoline
        nor the trapframe page, or panics because something is not mapped that
        should be, or is mapped that should not. */
    method ProcFreepagetable(root: nat, sz: nat) returns (ok: bool)
      requires Safe() && IsRoot(role, root) && Pages(sz) <= FRAMEVPN
      requires NotUser(mem, role, root, TRAMPVPN) && NotUser(mem, role, root, FRAMEVPN)
      modifies this
      ensures ok <==>
        && Lookup(old(mem), root, TRAMPVPN).Some? && Lookup(old(mem), root, FRAMEVPN).Some?
        && MappedAll(old(mem), root, 0, Pages(sz)) && Unmapped(old(mem), root, Pages(sz), FRAMEVPN - Pages(sz))
      ensures ok ==> Safe() && TornDown(old(mem), old(role), mem, role, root)
    {
      ghost var n := Pages(sz);
      ok := UnmapHigh(root, TRAMPVPN * PGSIZE, TRAMPVPN);
      if !ok {
        return;
      }
      ghost var mem1 := mem;
      assert RewrittenAt(old(mem), mem1, role, root, TRAMPVPN, 1, map[], root, FRAMEVPN);
      ok := UnmapHigh(root, FRAMEVPN * PGSIZE, FRAMEVPN);
      if !ok {
        return;
      }
      ghost var mem2 := mem;
      BelowKept(old(mem), mem1, mem2, role, root, n);
      ok := Uvmfree(root, sz);
      if ok {
        UnmapThenTorn(mem1, old(role), mem2, mem, role, root, FRAMEVPN);
        UnmapThenTorn(old(mem), old(role), mem1, mem, role, root, TRAMPVPN);
      }
    }

    /** The memory side of allocproc(): a trapframe page and an address space for
        it, or every page is where it was. */
    method Allocproc(tramp: nat) returns (r: Option<(nat, nat)>)
      requires Safe() && tramp !in role
      modifies this
      ensures Safe()
      ensures r.None? ==>
        role == old(role) && SameMaps(old(mem), mem, old(role)) && DataKept(old(mem), old(role), mem, role)
      ensures r.Some? ==> var (root, tf) := r.value;
        FreshProc(old(mem), old(role), mem, role, tf, root) && OnlyMaps(mem, root, ProcMaps(tf, tramp))
      ensures if r.Some? then |old(freelist)| <= |freelist| + 6 else |old(freelist)| < 6
    {
      DataRefl(mem, role, tab);
      var k := Kalloc();
      if k.None? {
        return None;
      }
      var tf := k.value;
      ghost var mem1 := mem;
      LooseOwned(old(mem), mem, old(role), old(tab), tf, Held);
      var root := ProcPagetable(tf, tramp);
      if root.None? {
        ghost var mem2 := mem;
        FreeFrame(tf);
        assert old(role)[tf := Held][tf := Free] == old(role);
        TakenAndBack(old(mem), old(role), mem1, mem2, mem, tf);
        return None;
      }
      ProcMade(old(mem), old(role), mem1, mem, role, tf, root.value);
      return Some((root.value, tf));
    }

    /** kfree((void*)p->trapframe) in freeproc(). */
    method FreeFrame(tf: nat)
      requires Safe() && tf in role && role[tf] == Held
      modifies this
      ensures Safe() && tab == old(tab) && role == old(role)[tf := Free] && SameMaps(old(mem), mem, old(role))
        && DataKept(old(mem), old(role), mem, role)
    {
      Kfree(tf);
      LooseOwned(old(mem), mem, old(role), old(tab), tf, Free);
    }

    /** The memory side of freeproc() for a process that never ran. */
    method Freeproc(tf: nat, root: nat, ghost tramp: nat, ghost m0: Mem, ghost role0: Roles, ghost tab0: Tab)
      requires Safe() && TreesOk(m0, role0, tab0) && NoneDying(role0) && FreshProc(m0, role0, mem, role, tf, root)
      requires OnlyMaps(mem, root, ProcMaps(tf, tramp)) && tramp !in role
      modifies this
      ensures Safe() && role == role0 && SameMaps(m0, mem, role0) && DataKept(m0, role0, mem, role)
    {
      ghost var mem1, role1 := mem, role;
      FreeFrame(tf);
      ghost var mem2 := mem;
      OnlyProcMaps(mem1, mem2, role1, root, tf, tramp);
      var ok := ProcFreepagetable(root, 0);
      ProcTorn(m0, role0, tab0, mem1, role1, mem2, mem, role, tf, root);
    }

    /** The memory side of fork(): the child gets its own copy of the parent's
        memory, beyond it maps the trapframe and the trampoline and nothing else; or
        every page is back where it was. */
    method Fork(parent: nat, sz: nat, tramp: nat) returns (r: Option<(nat, nat)>)
      requires Safe() && IsRoot(role, parent) && Pages(sz) <= FRAMEVPN && MappedAll(mem, parent, 0, Pages(sz))
        && tramp !in role
      modifies this
      ensures Safe()
      ensures r.None? ==> role == old(role) && multiset(freelist) == multiset(old(freelist))
      ensures r.None? ==> SameMaps(old(mem), mem, old(role)) && DataKept(old(mem), old(role), mem, role)
      ensures r.Some? ==> var (root, tf) := r.value;
        && FreshProc(old(mem), old(role), mem, role, tf, root)
        && Copied(old(mem), parent, mem, root, Pages(sz))
        && MapsAbove(mem, root, Pages(sz), ProcMaps(tf, tramp))
      ensures r.None? ==> |old(freelist)| < 6 + 3 * Pages(sz)
    {
      r := Allocproc(tramp);
      if r.None? {
        SameFree(old(freelist), freelist, role);
        return;
      }
      var (root, tf) := r.value;
      ghost var mem1, role1, n, now := mem, role, Pages(sz), map[];
      ForkReady(old(mem), old(role), old(tab), mem, role, tf, root, parent, n, ProcMaps(tf, tramp));
      assert ProcAt(old(role), role, tf, root, parent) && ProcAt(old(role), role, tf, root, tramp);
      var m: Mapped;
      m, now := Uvmcopy(parent, root, sz);
      if m.MapFail? {
        GrewNone(mem1, role1, mem, role, root, 0);
        ProcGrew(old(mem), old(role), mem1, role1, mem, role, tf, root, 0, 0, map[]);
        OnlyMapsThen(mem1, mem, role1, root, 0, 0, map[], ProcMaps(tf, tramp), ProcMaps(tf, tramp));
        assert UserGrown(role1, role, root, 0, 0, tramp);
        Freeproc(tf, root, tramp, old(mem), old(role), old(tab));
        SameFree(old(freelist), freelist, role);
        return None;
      }
      ProcGrew(old(mem), old(role), mem1, role1, mem, role, tf, root, 0, n, now);
      ForkCopied(old(mem), old(role), old(tab), mem1, role1, mem, tf, root, parent, n);
      RewrittenBelow(mem1, mem, role1, root, n, now, ProcMaps(tf, tramp));
    }
  }

  /** What the comment of uvmdealloc allows: oldsz beyond the size of a process, here
      one page where there is none. The call panics. */
  method DeallocBeyondSize(vm: Vm) returns (r: Option<nat>)
    requires vm.Safe() && vm.freelist != []
    modifies vm
    ensures r == None
  {
    var root := vm.Uvmcreate();
    assert OnlyMapsAt(vm.mem, root.value, map[], 0) && !MappedAt(vm.mem, root.value, 0, 1, 0);
    r := vm.Uvmdealloc(root.value, PGSIZE, 0);
  }
}
