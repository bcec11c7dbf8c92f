/** A new address space: proc_pagetable, fork and their failure paths hand back
    every page they took. */
module NewSpace {
  import opened PageTable
  import opened AddressSpace
  import opened TearDown

  predicate FreshAt(role0: Roles, role1: Roles, root: nat, p: nat) {
    && (p in role0 <==> p in role1)
    && (p in role0 && p in role1 && role1[p] != role0[p] ==> role0[p].Free? && Belongs(role1[p], root))
  }

  /** Between the two states only the address space at root came into being,
      out of free pages. */
  ghost predicate FreshSpace(m0: Mem, role0: Roles, m1: Mem, role1: Roles, root: nat) {
    && root in role0 && role0[root].Free? && IsRoot(role1, root)
    && (forall p: nat {:trigger FreshAt(role0, role1, root, p)} :: FreshAt(role0, role1, root, p))
    && SameMaps(m0, m1, role0) && DataKept(m0, role0, m1, role1)
  }

  predicate OnlyMapsAt(mem: Mem, root: nat, now: map<nat, nat>, w: nat) {
    w < MAXVPN ==> Lookup(mem, root, w) == Get(now, w)
  }

  /** The address space maps exactly this. */
  ghost predicate OnlyMaps(mem: Mem, root: nat, now: map<nat, nat>) {
    forall w: nat {:trigger OnlyMapsAt(mem, root, now, w)} :: OnlyMapsAt(mem, root, now, w)
  }

  predicate AboveAt(mem: Mem, root: nat, n: nat, now: map<nat, nat>, w: nat) {
    n <= w < MAXVPN ==> Lookup(mem, root, w) == Get(now, w)
  }

  /** From page n on the address space maps exactly this. */
  ghost predicate MapsAbove(mem: Mem, root: nat, n: nat, now: map<nat, nat>) {
    forall w: nat {:trigger AboveAt(mem, root, n, now, w)} :: AboveAt(mem, root, n, now, w)
  }

  lemma {:induction false} RewrittenBelow(m0: Mem, m1: Mem, role: Roles, root: nat, n: nat, low: map<nat, nat>,
      now: map<nat, nat>)
    requires OnlyMaps(m0, root, now) && IsRoot(role, root) && Rewritten(m0, m1, role, root, 0, n, low)
    ensures MapsAbove(m1, root, n, now)
  {
    forall w: nat ensures AboveAt(m1, root, n, now, w) {
      assert OnlyMapsAt(m0, root, now, w) && RewrittenAt(m0, m1, role, root, 0, n, low, root, w);
    }
  }

  lemma {:induction false} FreshRoot(m0: Mem, role0: Roles, tab: Tab, m1: Mem, role1: Roles, root: nat)
    requires TreesOk(m0, role0, tab) && root in role0 && role0[root].Free? && role1 == role0[root := Table(root, 2, 0)]
    requires SameMaps(m0, m1, role0) && root in m1 && m1 == m0[root := m1[root]] && Unmapped(m1, root, 0, MAXVPN)
    ensures FreshSpace(m0, role0, m1, role1, root) && OnlyMaps(m1, root, map[])
  {
    forall p: nat ensures FreshAt(role0, role1, root, p) && DataAt(m0, role0, m1, role1, p) {
      assert PageOk(m0, role0, tab, p);
    }
    forall w: nat ensures OnlyMapsAt(m1, root, map[], w) {
      assert UnmappedAt(m1, root, 0, MAXVPN, w);
    }
  }

  lemma {:induction false} FreshAdded(m0: Mem, role0: Roles, m1: Mem, role1: Roles, m2: Mem, role2: Roles, root: nat,
      v: nat, k: nat, now: map<nat, nat>)
    requires FreshSpace(m0, role0, m1, role1, root) && AddedTo(m1, role1, m2, role2, root, v, k, now)
    ensures FreshSpace(m0, role0, m2, role2, root)
  {
    forall p: nat ensures FreshAt(role0, role2, root, p) && DataAt(m0, role0, m2, role2, p) {
      assert FreshAt(role0, role1, root, p) && Grown(role1, role2, root, p);
      assert DataAt(m0, role0, m1, role1, p) && DataAt(m1, role1, m2, role2, p);
    }
    forall r: nat, w: nat ensures SameEntry(m0, m2, role0, r, w) {
      assert FreshAt(role0, role1, root, r) && SameEntry(m0, m1, role0, r, w)
        && RewrittenAt(m1, m2, role1, root, v, k, now, r, w);
    }
    assert Grown(role1, role2, root, root);
  }

  lemma {:induction false} FreshUnmapped(m0: Mem, role0: Roles, m1: Mem, role1: Roles, m2: Mem, root: nat, v: nat,
      k: nat)
    requires FreshSpace(m0, role0, m1, role1, root) && UnmappedTo(m1, role1, m2, role1, root, v, k, false)
    ensures FreshSpace(m0, role0, m2, role1, root)
  {
    forall p: nat ensures DataAt(m0, role0, m2, role1, p) {
      assert DataAt(m0, role0, m1, role1, p) && DataAt(m1, role1, m2, role1, p);
    }
    forall r: nat, w: nat ensures SameEntry(m0, m2, role0, r, w) {
      assert FreshAt(role0, role1, root, r) && SameEntry(m0, m1, role0, r, w)
        && RewrittenAt(m1, m2, role1, root, v, k, map[], r, w);
    }
  }

  /** What is mapped after a change to a range. */
  lemma {:induction false} OnlyMapsThen(m1: Mem, m2: Mem, role1: Roles, root: nat, v: nat, k: nat, e: map<nat, nat>,
      now: map<nat, nat>, now': map<nat, nat>)
    requires OnlyMaps(m1, root, now) && Rewritten(m1, m2, role1, root, v, k, e) && IsRoot(role1, root)
    requires forall w :: 0 <= w < MAXVPN ==> Get(now', w) == if v <= w < v + k then Get(e, w) else Get(now, w)
    ensures OnlyMaps(m2, root, now')
  {
    forall w: nat ensures OnlyMapsAt(m2, root, now', w) {
      assert OnlyMapsAt(m1, root, now, w) && RewrittenAt(m1, m2, role1, root, v, k, e, root, w);
    }
  }

  /** Unmapping a page that is not user memory of this address moves no page. */
  lemma {:induction false} NothingGiven(m0: Mem, role0: Roles, tab0: Tab, m1: Mem, role1: Roles, root: nat, v: nat)
    requires TreesOk(m0, role0, tab0) && UnmappedTo(m0, role0, m1, role1, root, v, 1, false)
    requires Lookup(m0, root, v).Some? ==> var p := Ppn(Lookup(m0, root, v).value); p in role0 ==>
      role0[p] != User(root, v)
    ensures role1 == role0
  {
    forall p: nat ensures GaveBackAt(role0, role1, root, v, 1, Held, p)
      && (p in role0 ==> !UserIn(role0[p], root, v, 1)) {
      assert UserOk(m0, role0, p);
    }
    assert forall p :: p in role0 ==> p in role1 && role1[p] == role0[p];
    assert forall p :: p in role1 ==> p in role0;
  }

  lemma {:induction false} UpTable(mem: Mem, role: Roles, tab: Tab, p: nat)
    requires TreesOk(mem, role, tab) && NoneDying(role) && p in role && role[p].Table? && role[p].level < 2
    ensures var up := Loc(role[p].root, role[p].level + 1, role[p].prefix / ENTRIES);
      up in tab && tab[up] in role && role[tab[up]].Table? && role[tab[up]].root == role[p].root
        && role[tab[up]].level == role[p].level + 1
  {
    assert ParentOk(mem, role, tab, p);
    assert NotDying(role, tab[Loc(role[p].root, role[p].level + 1, role[p].prefix / ENTRIES)]);
  }

  /** Nothing belongs to a tree without a root. */
  lemma {:induction false} NoneBelong(mem: Mem, role: Roles, tab: Tab, root: nat, p: nat)
    requires TreesOk(mem, role, tab) && NoneDying(role) && p in role && Belongs(role[p], root)
    ensures IsRoot(role, root)
    decreases if role[p].Table? then 2 - role[p].level else 0
  {
    assert PageOk(mem, role, tab, p) && UserOk(mem, role, p);
    if role[p].Table? && role[p].level < 2 {
      UpTable(mem, role, tab, p);
      var q := tab[Loc(role[p].root, role[p].level + 1, role[p].prefix / ENTRIES)];
      assert PageOk(mem, role, tab, q);
      NoneBelong(mem, role, tab, root, q);
    }
  }

  /** Creating an address space and taking it down again is as if nothing happened. */
  lemma {:induction false} FreshTorn(m0: Mem, role0: Roles, tab0: Tab, m1: Mem, role1: Roles, m2: Mem, role2: Roles,
      root: nat)
    requires TreesOk(m0, role0, tab0) && NoneDying(role0)
    requires FreshSpace(m0, role0, m1, role1, root) && TornDown(m1, role1, m2, role2, root)
    ensures role2 == role0 && SameMaps(m0, m2, role0) && DataKept(m0, role0, m2, role2)
  {
    forall p: nat ensures (p in role0 <==> p in role2) && (p in role0 ==> role2[p] == role0[p])
      && DataAt(m0, role0, m2, role2, p) {
      assert FreshAt(role0, role1, root, p) && TornAt(role1, role2, root, p);
      assert DataAt(m0, role0, m1, role1, p) && DataAt(m1, role1, m2, role2, p);
      if p in role0 && Belongs(role0[p], root) { NoneBelong(m0, role0, tab0, root, p); }
    }
    forall r: nat, w: nat ensures SameEntry(m0, m2, role0, r, w) {
      assert SameEntry(m0, m1, role0, r, w) && SameEntry(m1, m2, role2, r, w);
    }
    assert role2 == role0 by {
      assert forall p :: p in role0 ==> p in role2 && role2[p] == role0[p];
      assert forall p :: p in role2 ==> p in role0;
    }
  }

  /** Mappings at or above the trapframe do not concern user memory. */
  lemma {:induction false} HighOwned(m0: Mem, role0: Roles, m1: Mem, role1: Roles, root: nat, v: nat, k: nat,
      now: map<nat, nat>)
    requires Owned(m0, role0) && AddedTo(m0, role0, m1, role1, root, v, k, now) && v >= FRAMEVPN
    ensures Owned(m1, role1)
  {
    forall r: nat, w: nat ensures OwnedBelow(m1, role1, r, w) {
      assert OwnedBelow(m0, role0, r, w) && Grown(role0, role1, root, r)
        && RewrittenAt(m0, m1, role0, root, v, k, now, r, w);
      if w < MAXVPN && Lookup(m0, r, w).Some? {
        assert Grown(role0, role1, root, Ppn(Lookup(m0, r, w).value));
      }
    }
  }

  /** The same pages are free, so the free lists hold the same pages. */
  lemma {:induction false} SameFree(f0: seq<nat>, f1: seq<nat>, role: Roles)
    requires FreeListOk(f0, role) && FreeListOk(f1, role)
    ensures multiset(f0) == multiset(f1)
  {
    forall p: nat ensures multiset(f0)[p] == multiset(f1)[p] {
      assert FreeOk(f0, role, p) && FreeOk(f1, role, p);
    }
  }

  /** Unmapping the trampoline or the trapframe before taking the tree down. */
  lemma {:induction false} UnmapThenTorn(m0: Mem, role0: Roles, m1: Mem, m2: Mem, role2: Roles, root: nat, v: nat)
    requires UnmappedTo(m0, role0, m1, role0, root, v, 1, false) && TornDown(m1, role0, m2, role2, root)
    ensures TornDown(m0, role0, m2, role2, root)
  {
    forall p: nat ensures DataAt(m0, role0, m2, role2, p) {
      assert DataAt(m0, role0, m1, role0, p) && DataAt(m1, role0, m2, role2, p);
    }
    forall r: nat, w: nat ensures SameEntry(m0, m2, role2, r, w) {
      assert TornAt(role0, role2, root, r) && RewrittenAt(m0, m1, role0, root, v, 1, map[], r, w)
        && SameEntry(m1, m2, role2, r, w);
    }
  }

  // ----- a process: its trapframe page and its address space -----

  predicate ProcAt(role0: Roles, role1: Roles, tf: nat, root: nat, p: nat) {
    && (p in role0 <==> p in role1)
    && (p in role0 && p in role1 && role1[p] != role0[p] ==>
          role0[p].Free? && (if p == tf then role1[p] == Held else Belongs(role1[p], root)))
  }

  /** Between the two states only a process came into being: its trapframe page
      tf and its address space at root, out of free pages. */
  ghost predicate FreshProc(m0: Mem, role0: Roles, m1: Mem, role1: Roles, tf: nat, root: nat) {
    && tf in role0 && role0[tf].Free? && tf in role1 && role1[tf] == Held
    && root in role0 && role0[root].Free? && IsRoot(role1, root)
    && (forall p: nat {:trigger ProcAt(role0, role1, tf, root, p)} :: ProcAt(role0, role1, tf, root, p))
    && SameMaps(m0, m1, role0) && DataKept(m0, role0, m1, role1)
  }

  lemma {:induction false} ProcMade(m0: Mem, role0: Roles, m1: Mem, m2: Mem, role2: Roles, tf: nat, root: nat)
    requires tf in role0 && role0[tf].Free? && SameMaps(m0, m1, role0) && DataKept(m0, role0, m1, role0[tf := Held])
    requires FreshSpace(m1, role0[tf := Held], m2, role2, root)
    ensures FreshProc(m0, role0, m2, role2, tf, root)
  {
    var role1 := role0[tf := Held];
    assert FreshAt(role1, role2, root, tf);
    forall p: nat ensures ProcAt(role0, role2, tf, root, p) && DataAt(m0, role0, m2, role2, p) {
      assert FreshAt(role1, role2, root, p) && DataAt(m0, role0, m1, role1, p) && DataAt(m1, role1, m2, role2, p);
    }
    forall r: nat, w: nat ensures SameEntry(m0, m2, role0, r, w) {
      assert SameEntry(m0, m1, role0, r, w) && SameEntry(m1, m2, role1, r, w);
    }
  }

  lemma {:induction false} ProcGrew(m0: Mem, role0: Roles, m1: Mem, role1: Roles, m2: Mem, role2: Roles, tf: nat,
      root: nat, v: nat, k: nat, now: map<nat, nat>)
    requires FreshProc(m0, role0, m1, role1, tf, root) && GrewTo(m1, role1, m2, role2, root, v, k, now)
    ensures FreshProc(m0, role0, m2, role2, tf, root)
  {
    assert UserGrown(role1, role2, root, v, k, tf) && UserGrown(role1, role2, root, v, k, root);
    forall p: nat ensures ProcAt(role0, role2, tf, root, p) && DataAt(m0, role0, m2, role2, p) {
      assert ProcAt(role0, role1, tf, root, p) && UserGrown(role1, role2, root, v, k, p);
      assert DataAt(m0, role0, m1, role1, p) && DataAt(m1, role1, m2, role2, p);
    }
    forall r: nat, w: nat ensures SameEntry(m0, m2, role0, r, w) {
      assert ProcAt(role0, role1, tf, root, r) && SameEntry(m0, m1, role0, r, w)
        && RewrittenAt(m1, m2, role1, root, v, k, now, r, w);
    }
  }

  /** Freeing the trapframe page and the address space undoes it all. */
  lemma {:induction false} ProcTorn(m0: Mem, role0: Roles, tab0: Tab, m1: Mem, role1: Roles, m2: Mem, m3: Mem,
      role3: Roles, tf: nat, root: nat)
    requires TreesOk(m0, role0, tab0) && NoneDying(role0) && FreshProc(m0, role0, m1, role1, tf, root)
    requires SameMaps(m1, m2, role1) && DataKept(m1, role1, m2, role1[tf := Free])
      && TornDown(m2, role1[tf := Free], m3, role3, root)
    ensures role3 == role0 && SameMaps(m0, m3, role0) && DataKept(m0, role0, m3, role3)
  {
    var role2 := role1[tf := Free];
    forall p: nat ensures (p in role0 <==> p in role3) && (p in role0 ==> role3[p] == role0[p])
      && DataAt(m0, role0, m3, role3, p) {
      assert ProcAt(role0, role1, tf, root, p) && TornAt(role2, role3, root, p);
      assert DataAt(m0, role0, m1, role1, p) && DataAt(m1, role1, m2, role2, p) && DataAt(m2, role2, m3, role3, p);
      if p in role0 && Belongs(role0[p], root) { NoneBelong(m0, role0, tab0, root, p); }
    }
    forall r: nat, w: nat ensures SameEntry(m0, m3, role0, r, w) {
      assert ProcAt(role0, role1, tf, root, r) && SameEntry(m0, m1, role0, r, w) && SameEntry(m1, m2, role1, r, w)
        && SameEntry(m2, m3, role3, r, w);
    }
    assert role3 == role0 by {
      assert forall p :: p in role0 ==> p in role3 && role3[p] == role0[p];
      assert forall p :: p in role3 ==> p in role0;
    }
  }

  /** What is mapped at v, if anything, is not user memory of this address. */
  predicate NotUser(mem: Mem, role: Roles, root: nat, v: nat) {
    Lookup(mem, root, v).Some? ==> var p := Ppn(Lookup(mem, root, v).value); p in role ==> role[p] != User(root, v)
  }

  /** Unmapping trampoline and trapframe leaves the rest to be unmapped. */
  lemma {:induction false} BelowKept(m0: Mem, m1: Mem, m2: Mem, role: Roles, root: nat, n: nat)
    requires IsRoot(role, root) && n <= FRAMEVPN
    requires Rewritten(m0, m1, role, root, TRAMPVPN, 1, map[]) && Rewritten(m1, m2, role, root, FRAMEVPN, 1, map[])
    ensures MappedAll(m2, root, 0, n) <==> MappedAll(m0, root, 0, n)
    ensures Unmapped(m2, root, n, MAXVPN - n) <==> Unmapped(m0, root, n, FRAMEVPN - n)
  {
    var k2, k0 := MAXVPN - n, FRAMEVPN - n;
    forall w: nat ensures MappedAt(m2, root, 0, n, w) == MappedAt(m0, root, 0, n, w)
      && UnmappedAt(m2, root, n, k2, w) == UnmappedAt(m0, root, n, k0, w) {
      assert RewrittenAt(m0, m1, role, root, TRAMPVPN, 1, map[], root, w)
        && RewrittenAt(m1, m2, role, root, FRAMEVPN, 1, map[], root, w);
    }
    if MappedAll(m2, root, 0, n) {
      forall w: nat ensures MappedAt(m0, root, 0, n, w) { assert MappedAt(m2, root, 0, n, w); }
    }
    if Unmapped(m2, root, n, k2) {
      forall w: nat ensures UnmappedAt(m0, root, n, k0, w) { assert UnmappedAt(m2, root, n, k2, w); }
    }
  }

  /** A page outside all address spaces changes hands. */
  lemma {:induction false} LooseOwned(m0: Mem, m1: Mem, role: Roles, tab: Tab, p: nat, r: Role)
    requires TreesOk(m0, role, tab) && Owned(m0, role) && SameMaps(m0, m1, role) && p in role && !InTree(role[p])
      && !role[p].User? && (r.Free? || r.Held?) && r != role[p]
    requires p in m1 && m1 == m0[p := m1[p]]
    ensures Owned(m1, role[p := r]) && DataKept(m0, role, m1, role[p := r])
  {
    var role' := role[p := r];
    forall root: nat, w: nat ensures OwnedBelow(m1, role', root, w) {
      assert OwnedBelow(m0, role, root, w) && SameEntry(m0, m1, role, root, w);
    }
    forall q: nat ensures DataAt(m0, role, m1, role', q) {
      assert PageOk(m0, role, tab, q);
    }
  }

  /** Taking a page and giving it back, with nothing else moved in between. */
  lemma {:induction false} TakenAndBack(m0: Mem, role0: Roles, m1: Mem, m2: Mem, m3: Mem, p: nat)
    requires p in role0 && role0[p].Free? && DataKept(m0, role0, m1, role0[p := Held]) && SameMaps(m0, m1, role0)
    requires DataKept(m1, role0[p := Held], m2, role0[p := Held]) && SameMaps(m1, m2, role0[p := Held])
    requires DataKept(m2, role0[p := Held], m3, role0) && SameMaps(m2, m3, role0[p := Held])
    ensures DataKept(m0, role0, m3, role0) && SameMaps(m0, m3, role0)
  {
    var role1 := role0[p := Held];
    forall q: nat ensures DataAt(m0, role0, m3, role0, q) {
      assert DataAt(m0, role0, m1, role1, q) && DataAt(m1, role1, m2, role1, q) && DataAt(m2, role1, m3, role0, q);
    }
    forall r: nat, w: nat ensures SameEntry(m0, m3, role0, r, w) {
      assert SameEntry(m0, m1, role0, r, w) && SameEntry(m1, m2, role1, r, w) && SameEntry(m2, m3, role1, r, w);
    }
  }

  /** A new process leaves the pages of the others as they were. */
  lemma {:induction false} OthersStay(m0: Mem, role0: Roles, tab0: Tab, m1: Mem, role1: Roles, tf: nat, root: nat,
      r: nat, w: nat)
    requires TreesOk(m0, role0, tab0) && Owned(m0, role0) && FreshProc(m0, role0, m1, role1, tf, root)
      && IsRoot(role0, r) && w < FRAMEVPN
    ensures PageOf(m1, r, w) == PageOf(m0, r, w) && Lookup(m1, r, w) == Lookup(m0, r, w) && IsRoot(role1, r)
  {
    assert OwnedBelow(m0, role0, r, w) && SameEntry(m0, m1, role0, r, w) && ProcAt(role0, role1, tf, root, r);
    if Lookup(m0, r, w).Some? {
      var p := Ppn(Lookup(m0, r, w).value);
      assert ProcAt(role0, role1, tf, root, p) && DataAt(m0, role0, m1, role1, p);
    }
  }

  /** fork starts copying with the parent complete and the child empty. */
  lemma {:induction false} ForkReady(m0: Mem, role0: Roles, tab0: Tab, m1: Mem, role1: Roles, tf: nat, root: nat,
      parent: nat, n: nat, now: map<nat, nat>)
    requires TreesOk(m0, role0, tab0) && Owned(m0, role0) && FreshProc(m0, role0, m1, role1, tf, root)
      && IsRoot(role0, parent) && n <= FRAMEVPN
    requires MappedAll(m0, parent, 0, n) && OnlyMaps(m1, root, now) && forall w :: w in now ==> w >= FRAMEVPN
    ensures MappedAll(m1, parent, 0, n) && Unmapped(m1, root, 0, n)
  {
    forall w: nat ensures MappedAt(m1, parent, 0, n, w) && UnmappedAt(m1, root, 0, n, w) {
      assert MappedAt(m0, parent, 0, n, w) && OnlyMapsAt(m1, root, now, w);
      if w < n { OthersStay(m0, role0, tab0, m1, role1, tf, root, parent, w); }
    }
  }

  lemma {:induction false} ForkCopied(m0: Mem, role0: Roles, tab0: Tab, m1: Mem, role1: Roles, m2: Mem, tf: nat,
      root: nat, parent: nat, n: nat)
    requires TreesOk(m0, role0, tab0) && Owned(m0, role0) && FreshProc(m0, role0, m1, role1, tf, root)
      && IsRoot(role0, parent) && n <= FRAMEVPN
    requires Copied(m1, parent, m2, root, n)
    ensures Copied(m0, parent, m2, root, n)
  {
    forall w: nat ensures CopiedAt(m0, parent, m2, root, n, w) {
      assert CopiedAt(m1, parent, m2, root, n, w);
      if w < n { OthersStay(m0, role0, tab0, m1, role1, tf, root, parent, w); }
    }
  }
}
