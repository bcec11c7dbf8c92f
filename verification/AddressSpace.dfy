/** What the operations of kernel/vm.c do to the maps of all address spaces and
    to the owners of all pages, and how such changes compose. */
module AddressSpace {
  import opened Bytes
  import opened PageTable

  /** Virtual page numbers of TRAPFRAME and TRAMPOLINE; user memory lies below both. */
  const FRAMEVPN: nat := MAXVPN - 2
  const TRAMPVPN: nat := MAXVPN - 1

  // ----- the free list -----

  predicate FreeOk(freelist: seq<nat>, role: Roles, p: nat) {
    multiset(freelist)[p] == if p in role && role[p].Free? then 1 else 0
  }

  /** The free list holds each free page exactly once and no other page. */
  ghost predicate FreeListOk(freelist: seq<nat>, role: Roles) {
    forall p: nat {:trigger FreeOk(freelist, role, p)} :: FreeOk(freelist, role, p)
  }

  predicate NotDying(role: Roles, p: nat) {
    p in role ==> !role[p].Dying?
  }

  ghost predicate NoneDying(role: Roles) {
    forall p: nat {:trigger NotDying(role, p)} :: NotDying(role, p)
  }

  // ----- maps -----

  predicate SameEntry(mem: Mem, mem': Mem, role: Roles, root: nat, vpn: nat) {
    IsRoot(role, root) && vpn < MAXVPN ==> Lookup(mem', root, vpn) == Lookup(mem, root, vpn)
  }

  /** Every address space translates exactly as before. */
  ghost predicate SameMaps(mem: Mem, mem': Mem, role: Roles) {
    forall root: nat, vpn: nat {:trigger SameEntry(mem, mem', role, root, vpn)} :: SameEntry(mem, mem', role, root, vpn)
  }

  function Get(now: map<nat, nat>, w: nat): (e: Option<nat>) {
    if w in now then Some(now[w]) else None
  }

  predicate RewrittenAt(mem: Mem, mem': Mem, role: Roles, root: nat, v: nat, k: nat, now: map<nat, nat>, r: nat,
      w: nat)
  {
    IsRoot(role, r) && w < MAXVPN ==>
      Lookup(mem', r, w) == if r == root && v <= w < v + k then Get(now, w) else Lookup(mem, r, w)
  }

  /** In the tree at root the k pages from v on translate as now says; every
      other translation, in this and in every other tree, is as before. */
  ghost predicate Rewritten(mem: Mem, mem': Mem, role: Roles, root: nat, v: nat, k: nat, now: map<nat, nat>) {
    forall r: nat, w: nat {:trigger RewrittenAt(mem, mem', role, root, v, k, now, r, w)} ::
      RewrittenAt(mem, mem', role, root, v, k, now, r, w)
  }

  predicate UnmappedAt(mem: Mem, root: nat, v: nat, k: nat, w: nat) {
    v <= w < v + k ==> w < MAXVPN && Lookup(mem, root, w).None?
  }

  ghost predicate Unmapped(mem: Mem, root: nat, v: nat, k: nat) {
    forall w: nat {:trigger UnmappedAt(mem, root, v, k, w)} :: UnmappedAt(mem, root, v, k, w)
  }

  // ----- owners -----

  predicate RootKept(role: Roles, role': Roles, r: nat) {
    IsRoot(role, r) ==> IsRoot(role', r)
  }

  ghost predicate RootsKept(role: Roles, role': Roles) {
    forall r: nat {:trigger RootKept(role, role', r)} :: RootKept(role, role', r)
  }

  /** A page keeps its role, or goes from the free list into the tree at root. */
  predicate Grown(role: Roles, role': Roles, root: nat, p: nat) {
    && (p in role <==> p in role')
    && (p in role && p in role' && role'[p] != role[p] ==>
        role[p].Free? && role'[p].Table? && role'[p].root == root && role'[p].level < 2)
  }

  /** Between the two states only page-table pages were added, to the tree at root. */
  ghost predicate OnlyTablesAdded(role: Roles, role': Roles, root: nat) {
    forall p: nat {:trigger Grown(role, role', root, p)} :: Grown(role, role', root, p)
  }

  predicate IsData(r: Role) { r.User? || r.Held? }

  predicate DataAt(mem: Mem, role: Roles, mem': Mem, role': Roles, p: nat) {
    p in role && p in role' && role'[p] == role[p] && IsData(role[p]) ==> p in mem && p in mem' && mem'[p] == mem[p]
  }

  /** Pages of user memory and held pages that stay in their hands keep their contents. */
  ghost predicate DataKept(mem: Mem, role: Roles, mem': Mem, role': Roles) {
    forall p: nat {:trigger DataAt(mem, role, mem', role', p)} :: DataAt(mem, role, mem', role', p)
  }

  predicate OwnedAt(mem: Mem, role: Roles, root: nat, w: nat) {
    IsRoot(role, root) && w < MAXVPN && Lookup(mem, root, w).Some? ==>
      var p := Ppn(Lookup(mem, root, w).value);
      p in role && role[p] == User(root, w)
  }

  predicate OwnedBelow(mem: Mem, role: Roles, root: nat, w: nat) {
    w < FRAMEVPN ==> OwnedAt(mem, role, root, w)
  }

  /** Whatever an address space maps below the trapframe belongs to it, at that address. */
  ghost predicate Owned(mem: Mem, role: Roles) {
    forall root: nat, w: nat {:trigger OwnedBelow(mem, role, root, w)} :: OwnedBelow(mem, role, root, w)
  }

  /** So no two address spaces, and no two addresses, share a page, and no
      address reaches a free page or a page of a page table. */
  lemma {:induction false} NoSharing(mem: Mem, role: Roles, r0: nat, w0: nat, r1: nat, w1: nat)
    requires Owned(mem, role) && IsRoot(role, r0) && IsRoot(role, r1) && w0 < FRAMEVPN && w1 < FRAMEVPN
    requires Lookup(mem, r0, w0).Some? && Lookup(mem, r1, w1).Some?
    ensures Ppn(Lookup(mem, r0, w0).value) == Ppn(Lookup(mem, r1, w1).value) ==> r0 == r1 && w0 == w1
    ensures var p := Ppn(Lookup(mem, r0, w0).value);
      p in role && role[p].User?
  {
    assert OwnedBelow(mem, role, r0, w0) && OwnedBelow(mem, role, r1, w1);
  }

  // ----- composition -----

  lemma {:induction false} SameMapsRefl(mem: Mem, role: Roles)
    ensures SameMaps(mem, mem, role)
  {
  }

  lemma {:induction false} SameMapsTrans(m0: Mem, m1: Mem, m2: Mem, role0: Roles, role1: Roles)
    requires SameMaps(m0, m1, role0) && SameMaps(m1, m2, role1) && RootsKept(role0, role1)
    ensures SameMaps(m0, m2, role0)
  {
    forall r: nat, vpn: nat ensures SameEntry(m0, m2, role0, r, vpn) {
      assert RootKept(role0, role1, r) && SameEntry(m0, m1, role0, r, vpn) && SameEntry(m1, m2, role1, r, vpn);
    }
  }

  lemma {:induction false} RewrittenNone(mem: Mem, role: Roles, root: nat, v: nat, now: map<nat, nat>)
    ensures Rewritten(mem, mem, role, root, v, 0, now)
  {
  }

  lemma {:induction false} RewrittenSame(m0: Mem, m1: Mem, m2: Mem, role0: Roles, role1: Roles, root: nat, v: nat,
      k: nat, now: map<nat, nat>)
    requires Rewritten(m0, m1, role0, root, v, k, now) && SameMaps(m1, m2, role1) && RootsKept(role0, role1)
    ensures Rewritten(m0, m2, role0, root, v, k, now)
  {
    forall r: nat, w: nat ensures RewrittenAt(m0, m2, role0, root, v, k, now, r, w) {
      assert RootKept(role0, role1, r) && RewrittenAt(m0, m1, role0, root, v, k, now, r, w)
        && SameEntry(m1, m2, role1, r, w);
    }
  }

  lemma {:induction false} SameRewritten(m0: Mem, m1: Mem, m2: Mem, role0: Roles, role1: Roles, root: nat, v: nat,
      k: nat, now: map<nat, nat>)
    requires SameMaps(m0, m1, role0) && Rewritten(m1, m2, role1, root, v, k, now) && RootsKept(role0, role1)
    ensures Rewritten(m0, m2, role0, root, v, k, now)
  {
    forall r: nat, w: nat ensures RewrittenAt(m0, m2, role0, root, v, k, now, r, w) {
      assert RootKept(role0, role1, r) && SameEntry(m0, m1, role0, r, w)
        && RewrittenAt(m1, m2, role1, root, v, k, now, r, w);
    }
  }

  /** Rewriting the next page after a rewritten range. */
  lemma {:induction false} RewrittenNext(m0: Mem, m1: Mem, m2: Mem, role0: Roles, role1: Roles, root: nat, v: nat,
      k: nat, now: map<nat, nat>, e: map<nat, nat>, now': map<nat, nat>)
    requires Rewritten(m0, m1, role0, root, v, k, now) && Rewritten(m1, m2, role1, root, v + k, 1, e)
      && RootsKept(role0, role1)
    requires Get(now', v + k) == Get(e, v + k) && forall w :: v <= w < v + k ==> Get(now', w) == Get(now, w)
    ensures Rewritten(m0, m2, role0, root, v, k + 1, now')
  {
    var k1, vk := k + 1, v + k;
    forall r: nat, w: nat ensures RewrittenAt(m0, m2, role0, root, v, k1, now', r, w) {
      assert RootKept(role0, role1, r) && RewrittenAt(m0, m1, role0, root, v, k, now, r, w);
      assert RewrittenAt(m1, m2, role1, root, vk, 1, e, r, w);
    }
  }

  /** Removing what was added to an empty range restores every map. */
  lemma {:induction false} RewrittenUndo(m0: Mem, m1: Mem, m2: Mem, role0: Roles, role1: Roles, root: nat, v: nat,
      k: nat, now: map<nat, nat>)
    requires Rewritten(m0, m1, role0, root, v, k, now) && Rewritten(m1, m2, role1, root, v, k, map[])
      && RootsKept(role0, role1)
    requires Unmapped(m0, root, v, k)
    ensures SameMaps(m0, m2, role0)
  {
    forall r: nat, w: nat ensures SameEntry(m0, m2, role0, r, w) {
      assert RootKept(role0, role1, r) && RewrittenAt(m0, m1, role0, root, v, k, now, r, w);
      assert RewrittenAt(m1, m2, role1, root, v, k, map[], r, w) && UnmappedAt(m0, root, v, k, w);
    }
  }

  lemma {:induction false} HoleNext(mem: Mem, root: nat, v: nat, k: nat)
    requires Unmapped(mem, root, v, k) && v + k < MAXVPN && Lookup(mem, root, v + k).None?
    ensures Unmapped(mem, root, v, k + 1)
  {
    var k1 := k + 1;
    forall w: nat ensures UnmappedAt(mem, root, v, k1, w) {
      assert UnmappedAt(mem, root, v, k, w);
    }
  }

  lemma {:induction false} GrownRefl(role: Roles, root: nat)
    ensures OnlyTablesAdded(role, role, root) && RootsKept(role, role)
  {
  }

  lemma {:induction false} DataRefl(mem: Mem, role: Roles, tab: Tab)
    requires TreesOk(mem, role, tab)
    ensures DataKept(mem, role, mem, role)
  {
    forall p: nat ensures DataAt(mem, role, mem, role, p) {
      assert PageOk(mem, role, tab, p);
    }
  }

  lemma {:induction false} GrownTrans(role0: Roles, role1: Roles, role2: Roles, root: nat)
    requires OnlyTablesAdded(role0, role1, root) && OnlyTablesAdded(role1, role2, root)
    ensures OnlyTablesAdded(role0, role2, root)
  {
    forall p: nat ensures Grown(role0, role2, root, p) {
      assert Grown(role0, role1, root, p) && Grown(role1, role2, root, p);
    }
  }

  lemma {:induction false} GrownRoots(role: Roles, role': Roles, root: nat)
    requires OnlyTablesAdded(role, role', root)
    ensures RootsKept(role, role')
  {
    forall r: nat ensures RootKept(role, role', r) {
      assert Grown(role, role', root, r);
    }
  }

  lemma {:induction false} GrownData(m0: Mem, m1: Mem, m2: Mem, role0: Roles, role1: Roles, role2: Roles, root: nat)
    requires OnlyTablesAdded(role0, role1, root) && OnlyTablesAdded(role1, role2, root)
    requires DataKept(m0, role0, m1, role1) && DataKept(m1, role1, m2, role2)
    ensures DataKept(m0, role0, m2, role2)
  {
    forall p: nat ensures DataAt(m0, role0, m2, role2, p) {
      assert Grown(role0, role1, root, p) && Grown(role1, role2, root, p);
      assert DataAt(m0, role0, m1, role1, p) && DataAt(m1, role1, m2, role2, p);
    }
  }

  lemma {:induction false} NotDyingStep(role: Roles, p: nat, r: Role)
    requires !r.Dying?
    ensures NoneDying(role) ==> NoneDying(role[p := r])
  {
    var role' := role[p := r];
    if NoneDying(role) {
      forall q: nat ensures NotDying(role', q) {
        assert NotDying(role, q);
      }
    }
  }

  // ----- loose pages -----

  /** A page outside all trees is rewritten and changes hands. */
  lemma {:induction false} LooseStep(mem: Mem, role: Roles, tab: Tab, p: nat, page: Page, r: Role)
    requires TreesOk(mem, role, tab) && p in role && !InTree(role[p]) && !InTree(r) && !r.User? && |page| == ENTRIES
    ensures TreesOk(mem[p := page], role[p := r], tab)
    ensures SameMaps(mem, mem[p := page], role)
  {
    var mem', role' := mem[p := page], role[p := r];
    forall q: nat ensures LooseChange(mem, role, mem', role', q) {
      assert PageOk(mem, role, tab, q);
    }
    LooseKeepsTrees(mem, role, tab, mem', role');
    forall root: nat, vpn: nat ensures SameEntry(mem, mem', role, root, vpn) {
      if IsRoot(role, root) && vpn < MAXVPN {
        LookupFrame(mem, role, tab, root, vpn, mem');
      }
    }
  }

  /** A page taken from outside the trees leaves the walk as it was. */
  lemma {:induction false} TableKept(mem: Mem, role: Roles, tab: Tab, mem': Mem, root: nat, vpn: nat, k: nat)
    requires TreesOk(mem, role, tab) && IsRoot(role, root) && vpn < MAXVPN
    requires k in role && !InTree(role[k]) && k in mem' && mem' == mem[k := mem'[k]]
    ensures forall l: nat :: l <= 2 ==> TableAt(mem', root, vpn, l) == TableAt(mem, root, vpn, l)
  {
    forall p: nat ensures KeepsTable(mem, role, root, mem', p) {
      assert PageOk(mem, role, tab, p);
    }
    forall l: nat | l <= 2 ensures TableAt(mem', root, vpn, l) == TableAt(mem, root, vpn, l) {
      TableFrame(mem, role, tab, root, vpn, l, mem');
    }
  }

  // ----- a new table -----

  /** The walk goes on into the table just linked. */
  lemma {:induction false} LinkFound(mem: Mem, role: Roles, tab: Tab, root: nat, vpn: nat, level: nat, t: nat, n: nat)
    requires TreesOk(mem, role, tab) && IsRoot(role, root) && vpn < MAXVPN && 0 < level <= 2
    requires TableAt(mem, root, vpn, level) == Some(t) && TableAt(mem, root, vpn, level - 1).None?
    requires n in role && role[n] == Held && n in mem && mem[n] == seq(ENTRIES, _ => 0)
    ensures CanLink(mem, role, t, Index(level, vpn), n)
    ensures TableAt(LinkedMem(mem, t, Index(level, vpn), n), root, vpn, level - 1) == Some(n)
  {
    TableRole(mem, role, tab, root, vpn, level);
    PteRoundTrip(n, PTE_V);
    var mem' := LinkedMem(mem, t, Index(level, vpn), n);
    if level == 1 {
      assert PageOk(mem, role, tab, root);
      assert TableAt(mem', root, vpn, 2) == TableAt(mem, root, vpn, 2);
      assert TableAt(mem', root, vpn, 1) == TableAt(mem, root, vpn, 1);
    } else {
      assert TableAt(mem', root, vpn, 2) == TableAt(mem, root, vpn, 2);
    }
  }

  lemma {:induction false} LinkKeepsMaps(mem: Mem, role: Roles, tab: Tab, t: nat, i: nat, n: nat)
    requires TreesOk(mem, role, tab) && CanLink(mem, role, t, i, n)
    ensures SameMaps(mem, LinkedMem(mem, t, i, n), role)
  {
    var mem' := LinkedMem(mem, t, i, n);
    forall root: nat, vpn: nat ensures SameEntry(mem, mem', role, root, vpn) {
      if IsRoot(role, root) && vpn < MAXVPN {
        LinkKeepsMap(mem, role, tab, t, i, n, root, vpn);
      }
    }
  }

  lemma {:induction false} LinkRoles(role0: Roles, role1: Roles, role2: Roles, freelist: seq<nat>, root: nat, t: nat,
      i: nat, n: nat)
    requires n in role0 && role0[n].Free? && role1 == role0[n := Held] && t in role1 && t != n && role1[t].Table?
    requires 0 < role1[t].level <= 2 && role1[t].root == root && role2 == LinkedRole(role1, t, i, n)
    requires FreeListOk(freelist, role1) && NoneDying(role1)
    ensures OnlyTablesAdded(role0, role2, root) && FreeListOk(freelist, role2) && NoneDying(role2)
      && RootsKept(role0, role1)
  {
    forall p: nat ensures Grown(role0, role2, root, p) && FreeOk(freelist, role2, p) && NotDying(role2, p)
      && RootKept(role0, role1, p) {
      assert FreeOk(freelist, role1, p) && NotDying(role1, p);
    }
  }

  lemma {:induction false} LinkData(mem: Mem, role: Roles, tab: Tab, mem1: Mem, mem2: Mem, role2: Roles, t: nat, n: nat)
    requires TreesOk(mem, role, tab) && n in role && role[n].Free? && t in role && role[t].Table? && n in mem1
      && t in mem2
    requires mem1 == mem[n := mem1[n]] && mem2 == mem1[t := mem2[t]] && role2.Keys == role.Keys
        && forall p :: p in role && p != n ==> role2[p] == role[p]
    ensures DataKept(mem, role, mem2, role2)
  {
    forall p: nat ensures DataAt(mem, role, mem2, role2, p) {
      assert PageOk(mem, role, tab, p);
    }
  }

  lemma {:induction false} MissingBelow(mem: Mem, root: nat, vpn: nat, level: nat)
    requires 0 < level <= 2 && TableAt(mem, root, vpn, level - 1).None?
    ensures TableAt(mem, root, vpn, 0).None?
  {
  }

  // ----- leaf entries -----

  lemma {:induction false} LeafKeepsMaps(mem: Mem, role: Roles, tab: Tab, root: nat, vpn: nat, t: nat, e: nat)
    requires TreesOk(mem, role, tab) && IsRoot(role, root) && vpn < MAXVPN && TableAt(mem, root, vpn, 0) == Some(t)
      && Readable(mem, t)
    ensures Rewritten(mem, LeafMem(mem, t, Index(0, vpn), e), role, root, vpn, 1,
        if Present(e) then map[vpn := e] else map[])
  {
    var mem', now: map<nat, nat> := LeafMem(mem, t, Index(0, vpn), e), if Present(e) then map[vpn := e] else map[];
    forall r: nat, w: nat ensures RewrittenAt(mem, mem', role, root, vpn, 1, now, r, w) {
      if IsRoot(role, r) && w < MAXVPN {
        LeafMap(mem, role, tab, root, vpn, t, e, r, w);
      }
    }
  }

  /** Where no page of user memory is mapped, none has its place. */
  lemma {:induction false} NoUserThere(mem: Mem, role: Roles, tab: Tab, root: nat, vpn: nat, e: nat)
    requires TreesOk(mem, role, tab)
    requires Lookup(mem, root, vpn).Some? && Ppn(Lookup(mem, root, vpn).value) in role ==>
      role[Ppn(Lookup(mem, root, vpn).value)] != User(root, vpn)
    ensures LeafChanges(role, role, root, vpn, e)
  {
    forall p: nat ensures LeafChange(role, role, root, vpn, e, p) {
      assert UserOk(mem, role, p);
    }
  }

  /** Writing to a page table leaves data alone. */
  lemma {:induction false} TableData(mem: Mem, mem': Mem, role: Roles, tab: Tab, t: nat)
    requires TreesOk(mem, role, tab) && t in role && role[t].Table? && t in mem' && mem' == mem[t := mem'[t]]
    ensures DataKept(mem, role, mem', role)
  {
    forall p: nat ensures DataAt(mem, role, mem', role, p) {
      assert PageOk(mem, role, tab, p);
    }
  }

  // ----- mapping -----

  /** The k pages from v on are mapped as now says; the only pages that changed
      hands are new page-table pages of this tree. */
  ghost predicate AddedTo(m0: Mem, role0: Roles, m1: Mem, role1: Roles, root: nat, v: nat, k: nat, now: map<nat, nat>) {
    && Rewritten(m0, m1, role0, root, v, k, now)
    && OnlyTablesAdded(role0, role1, root)
    && DataKept(m0, role0, m1, role1)
  }

  lemma {:induction false} AddedNone(mem: Mem, role: Roles, tab: Tab, root: nat, v: nat)
    requires TreesOk(mem, role, tab)
    ensures AddedTo(mem, role, mem, role, root, v, 0, map[])
  {
    RewrittenNone(mem, role, root, v, map[]);
    DataRefl(mem, role, tab);
    GrownRefl(role, root);
  }

  /** Only tables were added. */
  lemma {:induction false} AddedTables(m0: Mem, role0: Roles, m1: Mem, role1: Roles, root: nat, v: nat)
    requires SameMaps(m0, m1, role0) && OnlyTablesAdded(role0, role1, root) && DataKept(m0, role0, m1, role1)
    ensures AddedTo(m0, role0, m1, role1, root, v, 0, map[])
  {
    forall r: nat, w: nat ensures RewrittenAt(m0, m1, role0, root, v, 0, map[], r, w) {
      assert SameEntry(m0, m1, role0, r, w);
    }
  }

  lemma {:induction false} AddedNext(m0: Mem, m1: Mem, m2: Mem, role0: Roles, role1: Roles, role2: Roles, root: nat,
      v: nat, k: nat, now: map<nat, nat>, d: nat, e: map<nat, nat>, now': map<nat, nat>)
    requires AddedTo(m0, role0, m1, role1, root, v, k, now) && AddedTo(m1, role1, m2, role2, root, v + k, d, e)
      && d <= 1
    requires d == 1 ==> Get(now', v + k) == Get(e, v + k)
    requires forall w :: v <= w < v + k ==> Get(now', w) == Get(now, w)
    ensures AddedTo(m0, role0, m2, role2, root, v, k + d, now')
  {
    var k1, vk := k + d, v + k;
    GrownRoots(role0, role1, root);
    GrownTrans(role0, role1, role2, root);
    GrownData(m0, m1, m2, role0, role1, role2, root);
    forall r: nat, w: nat ensures RewrittenAt(m0, m2, role0, root, v, k1, now', r, w) {
      assert RootKept(role0, role1, r) && RewrittenAt(m0, m1, role0, root, v, k, now, r, w);
      assert RewrittenAt(m1, m2, role1, root, vk, d, e, r, w);
    }
  }

  lemma {:induction false} StillThere(m0: Mem, role0: Roles, m1: Mem, role1: Roles, root: nat, v: nat, k: nat,
      now: map<nat, nat>)
    requires AddedTo(m0, role0, m1, role1, root, v, k, now) && IsRoot(role0, root)
    ensures IsRoot(role1, root) && (v + k < MAXVPN ==> Lookup(m1, root, v + k) == Lookup(m0, root, v + k))
  {
    assert Grown(role0, role1, root, root);
    assert RewrittenAt(m0, m1, role0, root, v, k, now, root, v + k);
  }

  // ----- unmapping -----

  predicate OwnedInRange(mem: Mem, role: Roles, root: nat, v: nat, k: nat, w: nat) {
    v <= w < v + k ==> OwnedAt(mem, role, root, w)
  }

  ghost predicate OwnedRange(mem: Mem, role: Roles, root: nat, v: nat, k: nat) {
    forall w: nat {:trigger OwnedInRange(mem, role, root, v, k, w)} :: OwnedInRange(mem, role, root, v, k, w)
  }

  predicate MappedAt(mem: Mem, root: nat, v: nat, k: nat, w: nat) {
    v <= w < v + k ==> w < MAXVPN && Lookup(mem, root, w).Some?
  }

  ghost predicate MappedAll(mem: Mem, root: nat, v: nat, k: nat) {
    forall w: nat {:trigger MappedAt(mem, root, v, k, w)} :: MappedAt(mem, root, v, k, w)
  }

  predicate UserIn(r: Role, root: nat, v: nat, k: nat) {
    r.User? && r.root == root && v <= r.vpn < v + k
  }

  predicate GaveBackAt(role: Roles, role': Roles, root: nat, v: nat, k: nat, to: Role, p: nat) {
    && (p in role <==> p in role')
    && (p in role && p in role' ==> role'[p] == if UserIn(role[p], root, v, k) then to else role[p])
  }

  /** Exactly the user pages of the range change hands. */
  ghost predicate GaveBack(role: Roles, role': Roles, root: nat, v: nat, k: nat, to: Role) {
    forall p: nat {:trigger GaveBackAt(role, role', root, v, k, to, p)} :: GaveBackAt(role, role', root, v, k, to, p)
  }

  lemma {:induction false} GaveBackRoots(role: Roles, role': Roles, root: nat, v: nat, k: nat, to: Role)
    requires GaveBack(role, role', root, v, k, to)
    ensures RootsKept(role, role')
  {
    forall r: nat ensures RootKept(role, role', r) {
      assert GaveBackAt(role, role', root, v, k, to, r);
    }
  }

  /** The pages from v on are unmapped; their user pages go back to the free
      list or, if not freed, to the caller; everything else stays. */
  ghost predicate UnmappedTo(m0: Mem, role0: Roles, m1: Mem, role1: Roles, root: nat, v: nat, k: nat, free: bool) {
    && Rewritten(m0, m1, role0, root, v, k, map[])
    && GaveBack(role0, role1, root, v, k, if free then Free else Held)
    && DataKept(m0, role0, m1, role1)
  }

  lemma {:induction false} UnmappedNone(mem: Mem, role: Roles, tab: Tab, root: nat, v: nat, free: bool)
    requires TreesOk(mem, role, tab)
    ensures UnmappedTo(mem, role, mem, role, root, v, 0, free)
  {
    RewrittenNone(mem, role, root, v, map[]);
    DataRefl(mem, role, tab);
    var to := if free then Free else Held;
    forall p: nat ensures GaveBackAt(role, role, root, v, 0, to, p) {
    }
  }

  lemma {:induction false} UnmappedNext(m0: Mem, m1: Mem, m2: Mem, role0: Roles, role1: Roles, role2: Roles, root: nat,
      v: nat, k: nat, free: bool)
    requires UnmappedTo(m0, role0, m1, role1, root, v, k, free)
      && UnmappedTo(m1, role1, m2, role2, root, v + k, 1, free)
    ensures UnmappedTo(m0, role0, m2, role2, root, v, k + 1, free)
  {
    var k1, vk, to := k + 1, v + k, if free then Free else Held;
    GaveBackRoots(role0, role1, root, v, k, to);
    RewrittenNext(m0, m1, m2, role0, role1, root, v, k, map[], map[], map[]);
    forall p: nat ensures GaveBackAt(role0, role2, root, v, k1, to, p) && DataAt(m0, role0, m2, role2, p) {
      assert GaveBackAt(role0, role1, root, v, k, to, p) && GaveBackAt(role1, role2, root, vk, 1, to, p);
      assert DataAt(m0, role0, m1, role1, p) && DataAt(m1, role1, m2, role2, p);
    }
  }

  /** A page of user memory on its way out of its address space. */
  lemma {:induction false} TakeUser(mem: Mem, role: Roles, tab: Tab, freelist: seq<nat>, p: nat)
    requires TreesOk(mem, role, tab) && FreeListOk(freelist, role) && NoneDying(role) && p in role && role[p].User?
    ensures TreesOk(mem, role[p := Held], tab) && FreeListOk(freelist, role[p := Held]) && NoneDying(role[p := Held])
  {
    var role' := role[p := Held];
    assert PageOk(mem, role, tab, p);
    LooseStep(mem, role, tab, p, mem[p], Held);
    assert mem[p := mem[p]] == mem;
    NotDyingStep(role, p, Held);
    forall q: nat ensures FreeOk(freelist, role', q) {
      assert FreeOk(freelist, role, q);
    }
  }

  /** What unmapping one page does to the owners. */
  lemma {:induction false} GaveBackOne(mem: Mem, role: Roles, tab: Tab, role': Roles, root: nat, vpn: nat, to: Role)
    requires TreesOk(mem, role, tab) && Lookup(mem, root, vpn).Some? && IsRoot(role, root) && vpn < MAXVPN
    requires var p := Ppn(Lookup(mem, root, vpn).value);
      role' == if p in role && role[p] == User(root, vpn) then role[p := to] else role
    ensures GaveBack(role, role', root, vpn, 1, to)
  {
    forall p: nat ensures GaveBackAt(role, role', root, vpn, 1, to, p) {
      assert UserOk(mem, role, p);
    }
  }

  lemma {:induction false} UnmapData(mem: Mem, role: Roles, tab: Tab, mem1: Mem, mem': Mem, role': Roles, p: nat,
      t: nat)
    requires TreesOk(mem, role, tab) && t in role && role[t].Table? && t in mem' && mem' == mem1[t := mem'[t]]
      && role'.Keys == role.Keys
    requires mem1 == mem || (p in mem1 && mem1 == mem[p := mem1[p]] && p in role && role'[p] != role[p])
    ensures DataKept(mem, role, mem', role')
  {
    forall q: nat ensures DataAt(mem, role, mem', role', q) {
      assert PageOk(mem, role, tab, q);
    }
  }

  /** Pages of the range not yet reached are still owned. */
  lemma {:induction false} StillOwned(m0: Mem, m1: Mem, role0: Roles, role1: Roles, root: nat, v: nat, k: nat, n: nat)
    requires OwnedRange(m0, role0, root, v, n) && UnmappedTo(m0, role0, m1, role1, root, v, k, true)
    requires IsRoot(role0, root) && k < n
    ensures OwnedAt(m1, role1, root, v + k)
  {
    var w := v + k;
    assert OwnedInRange(m0, role0, root, v, n, w) && RewrittenAt(m0, m1, role0, root, v, k, map[], root, w);
    if w < MAXVPN && Lookup(m0, root, w).Some? {
      assert GaveBackAt(role0, role1, root, v, k, Free, Ppn(Lookup(m0, root, w).value));
    }
  }

  lemma {:induction false} StillRoot(m0: Mem, role0: Roles, m1: Mem, role1: Roles, root: nat, v: nat, k: nat,
      free: bool)
    requires UnmappedTo(m0, role0, m1, role1, root, v, k, free) && IsRoot(role0, root)
    ensures IsRoot(role1, root) && (v + k < MAXVPN ==> Lookup(m1, root, v + k) == Lookup(m0, root, v + k))
  {
    assert GaveBackAt(role0, role1, root, v, k, if free then Free else Held, root);
    assert RewrittenAt(m0, m1, role0, root, v, k, map[], root, v + k);
  }

  lemma {:induction false} MappedNext(mem: Mem, root: nat, v: nat, k: nat)
    requires MappedAll(mem, root, v, k) && v + k < MAXVPN && Lookup(mem, root, v + k).Some?
    ensures MappedAll(mem, root, v, k + 1)
  {
    var k1 := k + 1;
    forall w: nat ensures MappedAt(mem, root, v, k1, w) {
      assert MappedAt(mem, root, v, k, w);
    }
  }

  lemma {:induction false} SameMapsFrom(mem: Mem, mem': Mem, role: Roles, p: nat, r: Role)
    requires p in role && !role[p].Table? && SameMaps(mem, mem', role[p := r])
    ensures SameMaps(mem, mem', role)
  {
    var role' := role[p := r];
    forall root: nat, vpn: nat ensures SameEntry(mem, mem', role, root, vpn) {
      assert SameEntry(mem, mem', role', root, vpn);
    }
  }

  // ----- growing user memory -----

  predicate UserGrown(role: Roles, role': Roles, root: nat, v: nat, k: nat, p: nat) {
    && (p in role <==> p in role')
    && (p in role && p in role' && role'[p] != role[p] ==>
          role[p].Free? && ((role'[p].Table? && role'[p].root == root && role'[p].level < 2)
            || UserIn(role'[p], root, v, k)))
  }

  predicate NewUserAt(role: Roles, root: nat, v: nat, k: nat, now: map<nat, nat>, w: nat) {
    v <= w < v + k ==> w in now && Ppn(now[w]) in role && role[Ppn(now[w])] == User(root, w)
  }

  /** The k pages from v on are mapped to pages that were free before; other
      free pages may have become page-table pages of this tree; nothing else
      changed hands. */
  ghost predicate GrewTo(m0: Mem, role0: Roles, m1: Mem, role1: Roles, root: nat, v: nat, k: nat, now: map<nat, nat>) {
    && Rewritten(m0, m1, role0, root, v, k, now)
    && (forall p: nat {:trigger UserGrown(role0, role1, root, v, k, p)} :: UserGrown(role0, role1, root, v, k, p))
    && (forall w: nat {:trigger NewUserAt(role1, root, v, k, now, w)} :: NewUserAt(role1, root, v, k, now, w))
    && DataKept(m0, role0, m1, role1)
  }

  lemma {:induction false} GrewNone(m0: Mem, role0: Roles, m1: Mem, role1: Roles, root: nat, v: nat)
    requires AddedTo(m0, role0, m1, role1, root, v, 0, map[])
    ensures GrewTo(m0, role0, m1, role1, root, v, 0, map[])
  {
    forall p: nat ensures UserGrown(role0, role1, root, v, 0, p) {
      assert Grown(role0, role1, root, p);
    }
  }

  lemma {:induction false} GrewRoots(m0: Mem, role0: Roles, m1: Mem, role1: Roles, root: nat, v: nat, k: nat,
      now: map<nat, nat>)
    requires GrewTo(m0, role0, m1, role1, root, v, k, now)
    ensures RootsKept(role0, role1) && RootsKept(role1, role0)
  {
    forall r: nat ensures RootKept(role0, role1, r) && RootKept(role1, role0, r) {
      assert UserGrown(role0, role1, root, v, k, r);
    }
  }

  lemma {:induction false} GrewNext(m0: Mem, m1: Mem, m2: Mem, role0: Roles, role1: Roles, role2: Roles, root: nat,
      v: nat, k: nat, now: map<nat, nat>, d: nat, e: map<nat, nat>, now': map<nat, nat>)
    requires GrewTo(m0, role0, m1, role1, root, v, k, now) && GrewTo(m1, role1, m2, role2, root, v + k, d, e) && d <= 1
    requires d == 1 ==> Get(now', v + k) == Get(e, v + k)
    requires forall w :: v <= w < v + k ==> Get(now', w) == Get(now, w)
    ensures GrewTo(m0, role0, m2, role2, root, v, k + d, now')
  {
    var k1, vk := k + d, v + k;
    GrewRoots(m0, role0, m1, role1, root, v, k, now);
    forall r: nat, w: nat ensures RewrittenAt(m0, m2, role0, root, v, k1, now', r, w) {
      assert RootKept(role0, role1, r) && RewrittenAt(m0, m1, role0, root, v, k, now, r, w);
      assert RewrittenAt(m1, m2, role1, root, vk, d, e, r, w);
    }
    forall p: nat ensures UserGrown(role0, role2, root, v, k1, p) && DataAt(m0, role0, m2, role2, p) {
      assert UserGrown(role0, role1, root, v, k, p) && UserGrown(role1, role2, root, vk, d, p);
      assert DataAt(m0, role0, m1, role1, p) && DataAt(m1, role1, m2, role2, p);
    }
    forall w: nat ensures NewUserAt(role2, root, v, k1, now', w) {
      assert NewUserAt(role1, root, v, k, now, w) && NewUserAt(role2, root, vk, d, e, w);
      if v <= w < vk {
        assert Get(now', w) == Get(now, w);
        assert UserGrown(role1, role2, root, vk, d, Ppn(now[w]));
      }
    }
  }

  /** Unmapping what was just added gives every page back but for the new tables. */
  lemma {:induction false} GrewUndo(m0: Mem, m1: Mem, m2: Mem, role0: Roles, tab0: Tab, role1: Roles, role2: Roles,
      root: nat, v: nat, k: nat, now: map<nat, nat>)
    requires TreesOk(m0, role0, tab0) && Unmapped(m0, root, v, k)
    requires GrewTo(m0, role0, m1, role1, root, v, k, now) && UnmappedTo(m1, role1, m2, role2, root, v, k, true)
    ensures AddedTo(m0, role0, m2, role2, root, v, 0, map[]) && SameMaps(m0, m2, role0)
  {
    GrewRoots(m0, role0, m1, role1, root, v, k, now);
    RewrittenUndo(m0, m1, m2, role0, role1, root, v, k, now);
    forall p: nat ensures Grown(role0, role2, root, p) && DataAt(m0, role0, m2, role2, p) {
      assert UserGrown(role0, role1, root, v, k, p) && GaveBackAt(role1, role2, root, v, k, Free, p)
        && UserOk(m0, role0, p);
      assert DataAt(m0, role0, m1, role1, p) && DataAt(m1, role1, m2, role2, p);
      if p in role0 && role0[p].User? { assert UnmappedAt(m0, root, v, k, role0[p].vpn); }
    }
    AddedTables(m0, role0, m2, role2, root, v);
  }

  lemma {:induction false} GrewOwned(m0: Mem, role0: Roles, m1: Mem, role1: Roles, root: nat, v: nat, k: nat,
      now: map<nat, nat>)
    requires Owned(m0, role0) && GrewTo(m0, role0, m1, role1, root, v, k, now)
    ensures Owned(m1, role1)
  {
    GrewRoots(m0, role0, m1, role1, root, v, k, now);
    forall r: nat, w: nat ensures OwnedBelow(m1, role1, r, w) {
      assert RootKept(role1, role0, r) && OwnedBelow(m0, role0, r, w)
        && RewrittenAt(m0, m1, role0, root, v, k, now, r, w);
      assert NewUserAt(role1, root, v, k, now, w);
      if w < MAXVPN && Lookup(m0, r, w).Some? {
        assert UserGrown(role0, role1, root, v, k, Ppn(Lookup(m0, r, w).value));
      }
    }
  }

  lemma {:induction false} AddedOwned(m0: Mem, role0: Roles, m1: Mem, role1: Roles, root: nat, v: nat)
    requires Owned(m0, role0) && AddedTo(m0, role0, m1, role1, root, v, 0, map[])
    ensures Owned(m1, role1)
  {
    GrewNone(m0, role0, m1, role1, root, v);
    GrewOwned(m0, role0, m1, role1, root, v, 0, map[]);
  }

  lemma {:induction false} UnmappedOwned(m0: Mem, role0: Roles, m1: Mem, role1: Roles, root: nat, v: nat, k: nat,
      free: bool)
    requires Owned(m0, role0) && UnmappedTo(m0, role0, m1, role1, root, v, k, free)
    ensures Owned(m1, role1)
  {
    var to := if free then Free else Held;
    forall r: nat, w: nat ensures OwnedBelow(m1, role1, r, w) {
      assert GaveBackAt(role0, role1, root, v, k, to, r) && OwnedBelow(m0, role0, r, w)
        && RewrittenAt(m0, m1, role0, root, v, k, map[], r, w);
      if w < MAXVPN && Lookup(m0, r, w).Some? {
        assert GaveBackAt(role0, role1, root, v, k, to, Ppn(Lookup(m0, r, w).value));
      }
    }
  }

  lemma {:induction false} GrewRange(m0: Mem, role0: Roles, m1: Mem, role1: Roles, root: nat, v: nat, k: nat,
      now: map<nat, nat>)
    requires GrewTo(m0, role0, m1, role1, root, v, k, now) && IsRoot(role0, root) && v + k <= MAXVPN
    ensures OwnedRange(m1, role1, root, v, k) && MappedAll(m1, root, v, k) && IsRoot(role1, root)
  {
    GrewRoots(m0, role0, m1, role1, root, v, k, now);
    assert RootKept(role0, role1, root);
    forall w: nat ensures OwnedInRange(m1, role1, root, v, k, w) && MappedAt(m1, root, v, k, w) {
      assert NewUserAt(role1, root, v, k, now, w) && RewrittenAt(m0, m1, role0, root, v, k, now, root, w);
    }
  }

  lemma {:induction false} GrewStill(m0: Mem, role0: Roles, m1: Mem, role1: Roles, root: nat, v: nat, k: nat,
      now: map<nat, nat>)
    requires GrewTo(m0, role0, m1, role1, root, v, k, now) && IsRoot(role0, root)
    ensures IsRoot(role1, root) && (v + k < MAXVPN ==> Lookup(m1, root, v + k) == Lookup(m0, root, v + k))
  {
    GrewRoots(m0, role0, m1, role1, root, v, k, now);
    assert RootKept(role0, role1, root) && RewrittenAt(m0, m1, role0, root, v, k, now, root, v + k);
  }

  lemma {:induction false} OwnedPart(mem: Mem, role: Roles, root: nat, v: nat, k: nat)
    requires Owned(mem, role) && v + k <= FRAMEVPN
    ensures OwnedRange(mem, role, root, v, k)
  {
    forall w: nat ensures OwnedInRange(mem, role, root, v, k, w) {
      assert OwnedBelow(mem, role, root, w);
    }
  }

  /** A page filled and mapped where nothing was mapped becomes user memory. */
  lemma {:induction false} Adopt(mem: Mem, role: Roles, tab: Tab, freelist: seq<nat>, root: nat, v: nat, p: nat)
    requires TreesOk(mem, role, tab) && FreeListOk(freelist, role) && NoneDying(role) && IsRoot(role, root)
      && v < MAXVPN
    requires Lookup(mem, root, v).Some? && Ppn(Lookup(mem, root, v).value) == p && p in role && role[p] == Held
    ensures TreesOk(mem, role[p := User(root, v)], tab) && FreeListOk(freelist, role[p := User(root, v)])
      && NoneDying(role[p := User(root, v)])
  {
    var role' := role[p := User(root, v)];
    NotDyingStep(role, p, User(root, v));
    forall q: nat ensures FreeOk(freelist, role', q) && PageOk(mem, role', tab, q) && ParentOk(mem, role', tab, q)
      && UserOk(mem, role', q) {
      assert FreeOk(freelist, role, q) && PageOk(mem, role, tab, q) && ParentOk(mem, role, tab, q)
        && UserOk(mem, role, q);
    }
    forall q: nat, i: nat ensures EntryOk(mem, role', q, i) {
      assert EntryOk(mem, role, q, i);
    }
  }

  /** A free page, filled, mapped at v and handed over to the address space. */
  lemma {:induction false} InstallGrew(m0: Mem, m1: Mem, m2: Mem, role0: Roles, tab: Tab, role1: Roles, role2: Roles,
      root: nat, v: nat, q: nat, now: map<nat, nat>)
    requires TreesOk(m0, role0, tab) && q in role0 && role0[q].Free? && role1 == role0[q := Held] && q in m1
      && m1 == m0[q := m1[q]]
    requires SameMaps(m0, m1, role0) && AddedTo(m1, role1, m2, role2, root, v, 1, now) && v in now && Ppn(now[v]) == q
    ensures q in role2 && GrewTo(m0, role0, m2, role2[q := User(root, v)], root, v, 1, now) && role2[q] == Held
      && q in m2 && m2[q] == m1[q]
  {
    var role3 := role2[q := User(root, v)];
    assert Grown(role1, role2, root, q) && DataAt(m1, role1, m2, role2, q);
    forall r: nat ensures RootKept(role0, role1, r) {
    }
    SameRewritten(m0, m1, m2, role0, role1, root, v, 1, now);
    forall p: nat ensures UserGrown(role0, role3, root, v, 1, p) && DataAt(m0, role0, m2, role3, p) {
      assert Grown(role1, role2, root, p) && DataAt(m1, role1, m2, role2, p) && PageOk(m0, role0, tab, p);
    }
  }

  /** The same page, given back because mapping it failed. */
  lemma {:induction false} InstallUndone(m0: Mem, m1: Mem, m2: Mem, m3: Mem, role0: Roles, tab: Tab, role1: Roles,
      role2: Roles, root: nat, v: nat, q: nat)
    requires TreesOk(m0, role0, tab) && q in role0 && role0[q].Free? && role1 == role0[q := Held] && q in m1
      && m1 == m0[q := m1[q]]
    requires SameMaps(m0, m1, role0) && AddedTo(m1, role1, m2, role2, root, v, 0, map[])
    requires q in m3 && m3 == m2[q := m3[q]] && SameMaps(m2, m3, role2)
    ensures AddedTo(m0, role0, m3, role2[q := Free], root, v, 0, map[])
  {
    var role3 := role2[q := Free];
    forall r: nat ensures RootKept(role0, role1, r) {
    }
    SameRewritten(m0, m1, m2, role0, role1, root, v, 0, map[]);
    GrownRoots(role1, role2, root);
    forall r: nat ensures RootKept(role0, role2, r) {
      assert RootKept(role0, role1, r) && RootKept(role1, role2, r);
    }
    RewrittenSame(m0, m2, m3, role0, role2, root, v, 0, map[]);
    forall p: nat ensures Grown(role0, role3, root, p) && DataAt(m0, role0, m3, role3, p) {
      assert Grown(role1, role2, root, p) && DataAt(m1, role1, m2, role2, p) && PageOk(m0, role0, tab, p);
    }
  }

  lemma {:induction false} HeldKept(m0: Mem, role0: Roles, m1: Mem, role1: Roles, root: nat, v: nat, k: nat,
      now: map<nat, nat>, q: nat)
    requires AddedTo(m0, role0, m1, role1, root, v, k, now) && q in role0 && role0[q] == Held
    ensures q in role1 && role1[q] == Held
  {
    assert Grown(role0, role1, root, q);
  }

  // ----- an empty address space -----

  lemma {:induction false} NewRoot(mem: Mem, role: Roles, tab: Tab, freelist: seq<nat>, p: nat)
    requires TreesOk(mem, role, tab) && FreeListOk(freelist, role) && NoneDying(role)
    requires p in role && role[p] == Held && p in mem && mem[p] == seq(ENTRIES, _ => 0)
    ensures TreesOk(mem, role[p := Table(p, 2, 0)], tab[Loc(p, 2, 0) := p])
    ensures FreeListOk(freelist, role[p := Table(p, 2, 0)]) && NoneDying(role[p := Table(p, 2, 0)])
    ensures Unmapped(mem, p, 0, MAXVPN)
  {
    var role', tab' := role[p := Table(p, 2, 0)], tab[Loc(p, 2, 0) := p];
    NotDyingStep(role, p, Table(p, 2, 0));
    forall q: nat ensures FreeOk(freelist, role', q) && PageOk(mem, role', tab', q) && ParentOk(mem, role', tab', q)
      && UserOk(mem, role', q) {
      assert FreeOk(freelist, role, q) && PageOk(mem, role, tab, q) && ParentOk(mem, role, tab, q)
        && UserOk(mem, role, q) && NotDying(role, q);
      if q in role && role[q].Table? && role[q].level < 2 {
        var up := Loc(role[q].root, role[q].level + 1, role[q].prefix / ENTRIES);
        assert PageOk(mem, role, tab, tab[up]);
      }
    }
    forall q: nat, i: nat ensures EntryOk(mem, role', q, i) {
      assert EntryOk(mem, role, q, i);
    }
    forall w: nat ensures UnmappedAt(mem, p, 0, MAXVPN, w) {
      assert TableAt(mem, p, w, 2) == Some(p) && TableAt(mem, p, w, 1).None?;
    }
  }

  lemma {:induction false} NewRootOwned(m0: Mem, m1: Mem, role: Roles, p: nat)
    requires Owned(m0, role) && SameMaps(m0, m1, role) && p in role && role[p].Free? && Unmapped(m1, p, 0, MAXVPN)
    ensures Owned(m1, role[p := Table(p, 2, 0)])
  {
    var role' := role[p := Table(p, 2, 0)];
    forall r: nat, w: nat ensures OwnedBelow(m1, role', r, w) {
      assert OwnedBelow(m0, role, r, w) && SameEntry(m0, m1, role, r, w) && UnmappedAt(m1, p, 0, MAXVPN, w);
    }
  }

  // ----- contents -----

  /** Flags and contents of the page an address space has at w. */
  function PageOf(mem: Mem, root: nat, w: nat): (r: Option<(nat, Page)>) {
    var e := Lookup(mem, root, w);
    if e.Some? && Ppn(e.value) in mem then Some((Flags(e.value), mem[Ppn(e.value)])) else None
  }

  /** User memory outside the new range keeps its contents and flags. */
  lemma {:induction false} PageStays(m0: Mem, role0: Roles, m1: Mem, role1: Roles, root: nat, v: nat, k: nat,
      now: map<nat, nat>, r: nat, w: nat)
    requires GrewTo(m0, role0, m1, role1, root, v, k, now) && IsRoot(role0, r) && OwnedAt(m0, role0, r, w) && w < MAXVPN
    requires r == root ==> !(v <= w < v + k)
    requires forall p :: p in role0 ==> p in m0
    ensures PageOf(m1, r, w) == PageOf(m0, r, w)
  {
    assert RewrittenAt(m0, m1, role0, root, v, k, now, r, w);
    if Lookup(m0, r, w).Some? {
      var p := Ppn(Lookup(m0, r, w).value);
      assert UserGrown(role0, role1, root, v, k, p) && DataAt(m0, role0, m1, role1, p);
    }
  }

  predicate FilledAt(mem: Mem, root: nat, v: nat, k: nat, flags: nat, page: Page, w: nat) {
    v <= w < v + k ==> PageOf(mem, root, w) == Some((flags, page))
  }

  /** Every page of the range has these flags and these contents. */
  ghost predicate Filled(mem: Mem, root: nat, v: nat, k: nat, flags: nat, page: Page) {
    forall w: nat {:trigger FilledAt(mem, root, v, k, flags, page, w)} :: FilledAt(mem, root, v, k, flags, page, w)
  }

  predicate CopiedAt(mem0: Mem, from: nat, mem: Mem, to: nat, k: nat, w: nat) {
    w < k ==> PageOf(mem, to, w).Some? && PageOf(mem, to, w) == PageOf(mem0, from, w)
  }

  /** The first k pages of one address space are copies of the other's. */
  ghost predicate Copied(mem0: Mem, from: nat, mem: Mem, to: nat, k: nat) {
    forall w: nat {:trigger CopiedAt(mem0, from, mem, to, k, w)} :: CopiedAt(mem0, from, mem, to, k, w)
  }

  lemma {:induction false} FilledNext(m0: Mem, m1: Mem, m2: Mem, role0: Roles, role1: Roles, tab1: Tab, role2: Roles,
      root: nat, v: nat, k: nat, now: map<nat, nat>, e: map<nat, nat>, flags: nat, page: Page)
    requires TreesOk(m1, role1, tab1) && IsRoot(role0, root) && v + k < MAXVPN
    requires GrewTo(m0, role0, m1, role1, root, v, k, now) && GrewTo(m1, role1, m2, role2, root, v + k, 1, e)
    requires Filled(m1, root, v, k, flags, page) && PageOf(m2, root, v + k) == Some((flags, page))
    ensures Filled(m2, root, v, k + 1, flags, page)
  {
    var k1, vk := k + 1, v + k;
    GrewRange(m0, role0, m1, role1, root, v, k, now);
    assert forall p :: p in role1 ==> PageOk(m1, role1, tab1, p);
    forall w: nat ensures FilledAt(m2, root, v, k1, flags, page, w) {
      assert FilledAt(m1, root, v, k, flags, page, w) && OwnedInRange(m1, role1, root, v, k, w);
      if v <= w < vk {
        PageStays(m1, role1, m2, role2, root, vk, 1, e, root, w);
      }
    }
  }

  lemma {:induction false} CopiedNext(m0: Mem, m1: Mem, m2: Mem, role0: Roles, role1: Roles, tab1: Tab, role2: Roles,
      from: nat, root: nat, k: nat, now: map<nat, nat>, e: map<nat, nat>)
    requires TreesOk(m1, role1, tab1) && IsRoot(role0, root) && k < MAXVPN
    requires GrewTo(m0, role0, m1, role1, root, 0, k, now) && GrewTo(m1, role1, m2, role2, root, k, 1, e)
    requires Copied(m0, from, m1, root, k) && PageOf(m2, root, k).Some? && PageOf(m2, root, k) == PageOf(m0, from, k)
    ensures Copied(m0, from, m2, root, k + 1)
  {
    var k1 := k + 1;
    GrewRange(m0, role0, m1, role1, root, 0, k, now);
    assert forall p :: p in role1 ==> PageOk(m1, role1, tab1, p);
    forall w: nat ensures CopiedAt(m0, from, m2, root, k1, w) {
      assert CopiedAt(m0, from, m1, root, k, w) && OwnedInRange(m1, role1, root, 0, k, w);
      if w < k {
        PageStays(m1, role1, m2, role2, root, k, 1, e, root, w);
      }
    }
  }

  /** While the child grows, the parent's page k stays as it was, and its own. */
  lemma {:induction false} ParentStays(m0: Mem, role0: Roles, tab0: Tab, m1: Mem, role1: Roles, from: nat, to: nat,
      k: nat, now: map<nat, nat>)
    requires TreesOk(m0, role0, tab0) && Owned(m0, role0) && GrewTo(m0, role0, m1, role1, to, 0, k, now)
      && IsRoot(role0, from) && k < FRAMEVPN
    ensures IsRoot(role1, from) && OwnedAt(m1, role1, from, k)
    ensures PageOf(m1, from, k) == PageOf(m0, from, k) && Lookup(m1, from, k) == Lookup(m0, from, k)
  {
    assert forall p :: p in role0 ==> PageOk(m0, role0, tab0, p);
    assert OwnedBelow(m0, role0, from, k);
    PageStays(m0, role0, m1, role1, to, 0, k, now, from, k);
    GrewOwned(m0, role0, m1, role1, to, 0, k, now);
    GrewRoots(m0, role0, m1, role1, to, 0, k, now);
    assert RootKept(role0, role1, from) && OwnedBelow(m1, role1, from, k)
      && RewrittenAt(m0, m1, role0, to, 0, k, now, from, k);
  }
}
