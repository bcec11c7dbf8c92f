/** Sv39 page tables (section 4.4 of the RISC-V Instruction Set Manual Volume II,
    Privileged Architecture) as kernel/vm.c keeps them in physical pages, and
    the flat map from virtual page to page-table entry that they stand for. */
module PageTable {
  import opened Bytes

  const PGSIZE: nat := 4096
  const ENTRIES: nat := 512
  /** MAXVA is 2^38: one bit less than Sv39 allows. */
  const MAXVA: nat := 0x40_0000_0000
  const MAXVPN: nat := 0x400_0000

  const PTE_V: nat := 1
  const PTE_R: nat := 2
  const PTE_W: nat := 4
  const PTE_X: nat := 8
  const PTE_U: nat := 16

  /** A physical page as 512 words, indexed by physical page number. */
  type Page = seq<nat>
  type Mem = map<nat, Page>

  // ----- entries -----

  function Pte(ppn: nat, flags: nat): (e: nat) { ppn * 1024 + flags }
  function Ppn(e: nat): (ppn: nat) { e / 1024 }
  function Flags(e: nat): (f: nat) { e % 1024 }
  predicate Present(e: nat) { e % 2 == 1 }
  predicate IsLeaf(e: nat) { e / 2 % 8 != 0 }

  /** PA2PTE and PTE2PA are inverse, and the ten flag bits are kept apart. */
  lemma {:induction false} PteRoundTrip(ppn: nat, flags: nat)
    requires flags < 1024
    ensures Ppn(Pte(ppn, flags)) == ppn && Flags(Pte(ppn, flags)) == flags
    ensures Present(Pte(ppn, flags)) == Present(flags) && IsLeaf(Pte(ppn, flags)) == IsLeaf(flags)
  {
    var e, half := Pte(ppn, flags), flags / 2;
    assert e == 2 * (512 * ppn + half) + flags % 2;
    assert e / 2 == 8 * (64 * ppn) + half;
  }

  // ----- addresses -----

  /** PX(level, va): the index into the table at a level. */
  function PX(level: nat, va: nat): (i: nat)
    requires level <= 2
    ensures i < ENTRIES
  {
    va / (if level == 2 then 0x4000_0000 else if level == 1 then 0x20_0000 else 0x1000) % ENTRIES
  }

  /** The same index, from the virtual page number. */
  function Index(level: nat, vpn: nat): (i: nat)
    requires level <= 2
    ensures i < ENTRIES
  {
    (if level == 2 then vpn / 0x4_0000 else if level == 1 then vpn / 0x200 else vpn) % ENTRIES
  }

  /** The part of a virtual page number that selects the table at a level. */
  function Prefix(level: nat, vpn: nat): (p: nat)
    requires level <= 2
  {
    if level == 2 then 0 else if level == 1 then vpn / 0x4_0000 else vpn / 0x200
  }

  lemma {:induction false} PXIsIndex(level: nat, va: nat)
    requires level <= 2 && va < MAXVA
    ensures PX(level, va) == Index(level, va / PGSIZE) && va / PGSIZE < MAXVPN
  {
    assert va / 0x20_0000 == va / PGSIZE / 0x200;
    assert va / 0x4000_0000 == va / PGSIZE / 0x4_0000;
  }

  lemma {:induction false} PageBound(va: nat)
    ensures va >= MAXVA <==> va / PGSIZE >= MAXVPN
  {
  }

  lemma {:induction false} PrefixStep(level: nat, vpn: nat)
    requires 0 < level <= 2 && vpn < MAXVPN
    ensures Prefix(level - 1, vpn) == Prefix(level, vpn) * ENTRIES + Index(level, vpn)
    ensures Prefix(level - 1, vpn) / ENTRIES == Prefix(level, vpn)
      && Prefix(level - 1, vpn) % ENTRIES == Index(level, vpn)
  {
    assert vpn / 0x200 / 0x200 == vpn / 0x4_0000;
  }

  lemma {:induction false} SamePage(v: nat, w: nat)
    requires v < MAXVPN && w < MAXVPN
    ensures Prefix(0, v) == Prefix(0, w) && Index(0, v) == Index(0, w) ==> v == w
  {
  }

  // ----- walking -----

  predicate Readable(mem: Mem, p: nat) {
    p in mem && |mem[p]| == ENTRIES
  }

  /** The table at a level on the way to vpn, if the tree has it. */
  function TableAt(mem: Mem, root: nat, vpn: nat, level: nat): (t: Option<nat>)
    requires level <= 2
    decreases 2 - level
  {
    if level == 2 then Some(root)
    else
      var up := TableAt(mem, root, vpn, level + 1);
      if up.None? || !Readable(mem, up.value) then None
      else
        var e := mem[up.value][Index(level + 1, vpn)];
        if Present(e) then Some(Ppn(e)) else None
  }

  /** The flat map: the entry that translates vpn, if there is a valid one. */
  function Lookup(mem: Mem, root: nat, vpn: nat): (e: Option<nat>) {
    var t := TableAt(mem, root, vpn, 0);
    if t.Some? && Readable(mem, t.value) && Present(mem[t.value][Index(0, vpn)])
    then Some(mem[t.value][Index(0, vpn)]) else None
  }

  // ----- who owns each page -----

  /** Free: on the free list. Held: in the hands of the running kernel code.
      Table: a page-table page of the tree at root. Dying: such a page while
      freewalk takes it down. User: a page of user memory. */
  datatype Role =
    | Free
    | Held
    | Table(root: nat, level: nat, prefix: nat)
    | Dying(root: nat, level: nat, prefix: nat)
    | User(root: nat, vpn: nat)

  datatype Loc = Loc(root: nat, level: nat, prefix: nat)

  type Roles = map<nat, Role>
  type Tab = map<Loc, nat>

  predicate InTree(r: Role) { r.Table? || r.Dying? }

  function LocOf(r: Role): (l: Loc)
    requires InTree(r)
  {
    Loc(r.root, r.level, r.prefix)
  }

  /** Walks below MAXVA use only the lower half of the root. */
  predicate PrefixOk(level: nat, prefix: nat) {
    if level == 2 then prefix == 0 else if level == 1 then prefix < 256 else prefix < 0x2_0000
  }

  /** Every managed page is a readable page; a table knows its place in its tree. */
  predicate PageOk(mem: Mem, role: Roles, tab: Tab, p: nat) {
    && (p in mem <==> p in role)
    && (p in role ==> |mem[p]| == ENTRIES)
    && (p in role && InTree(role[p]) ==>
          && role[p].level <= 2
          && (role[p].level == 2 ==> role[p].root == p)
          && PrefixOk(role[p].level, role[p].prefix)
          && LocOf(role[p]) in tab && tab[LocOf(role[p])] == p)
  }

  /** Entry i of table p: absent, a leaf at level 0, or a pointer to the table below. */
  predicate EntryOk(mem: Mem, role: Roles, p: nat, i: nat) {
    p in role && role[p].Table? && Readable(mem, p) && i < ENTRIES && Present(mem[p][i]) ==>
      var e := mem[p][i];
      if role[p].level == 0 then IsLeaf(e)
      else
        && !IsLeaf(e) && Ppn(e) in role
        && role[Ppn(e)] == Table(role[p].root, role[p].level - 1, role[p].prefix * ENTRIES + i)
  }

  /** A table below the root is pointed to by the table above it. */
  predicate ParentOk(mem: Mem, role: Roles, tab: Tab, q: nat) {
    q in role && role[q].Table? && role[q].level < 2 ==>
      var up := Loc(role[q].root, role[q].level + 1, role[q].prefix / ENTRIES);
      && up in tab && tab[up] in role && InTree(role[tab[up]]) && LocOf(role[tab[up]]) == up
      && Readable(mem, tab[up])
      && var e := mem[tab[up]][role[q].prefix % ENTRIES];
      Present(e) && Ppn(e) == q
  }

  predicate IsRoot(role: Roles, root: nat) {
    root in role && role[root] == Table(root, 2, 0)
  }

  /** A page of user memory is mapped where its role says. */
  predicate UserOk(mem: Mem, role: Roles, p: nat) {
    p in role && role[p].User? ==>
      var e := Lookup(mem, role[p].root, role[p].vpn);
      IsRoot(role, role[p].root) && role[p].vpn < MAXVPN && e.Some? && Ppn(e.value) == p
  }

  ghost predicate TreesOk(mem: Mem, role: Roles, tab: Tab) {
    && (forall p: nat {:trigger PageOk(mem, role, tab, p)} :: PageOk(mem, role, tab, p))
    && (forall p: nat, i: nat {:trigger EntryOk(mem, role, p, i)} :: EntryOk(mem, role, p, i))
    && (forall q: nat {:trigger ParentOk(mem, role, tab, q)} :: ParentOk(mem, role, tab, q))
    && (forall p: nat {:trigger UserOk(mem, role, p)} :: UserOk(mem, role, p))
  }

  /** The tables on the way to vpn are tables of this tree, at vpn's prefixes. */
  lemma {:induction false} TableRole(mem: Mem, role: Roles, tab: Tab, root: nat, vpn: nat, level: nat)
    requires TreesOk(mem, role, tab) && IsRoot(role, root) && vpn < MAXVPN && level <= 2
    ensures var t := TableAt(mem, root, vpn, level);
      t.Some? ==> t.value in role && role[t.value] == Table(root, level, Prefix(level, vpn)) && Readable(mem, t.value)
    decreases 2 - level
  {
    assert PageOk(mem, role, tab, root);
    if level < 2 {
      TableRole(mem, role, tab, root, vpn, level + 1);
      var up := TableAt(mem, root, vpn, level + 1);
      if up.Some? {
        PrefixStep(level + 1, vpn);
        assert EntryOk(mem, role, up.value, Index(level + 1, vpn));
        var e := mem[up.value][Index(level + 1, vpn)];
        assert PageOk(mem, role, tab, Ppn(e));
      }
    }
  }

  /** A table with vpn's prefix is the one the walk finds. */
  lemma {:induction false} TableFound(mem: Mem, role: Roles, tab: Tab, root: nat, vpn: nat, level: nat, t: nat)
    requires TreesOk(mem, role, tab) && IsRoot(role, root) && vpn < MAXVPN && level <= 2
    requires t in role && role[t] == Table(root, level, Prefix(level, vpn))
    requires forall q :: q in role && role[q].Dying? ==> role[q].root != root
    ensures TableAt(mem, root, vpn, level) == Some(t)
    decreases 2 - level
  {
    assert PageOk(mem, role, tab, t) && PageOk(mem, role, tab, root);
    if level < 2 {
      PrefixStep(level + 1, vpn);
      assert ParentOk(mem, role, tab, t);
      var up := tab[Loc(root, level + 1, Prefix(level + 1, vpn))];
      TableFound(mem, role, tab, root, vpn, level + 1, up);
    }
  }

  predicate KeepsTable(mem: Mem, role: Roles, root: nat, mem': Mem, p: nat) {
    p in role && role[p].Table? && role[p].root == root ==> p in mem && p in mem' && mem'[p] == mem[p]
  }

  /** Every table of the tree at root has the same contents in mem'. */
  ghost predicate KeepsTree(mem: Mem, role: Roles, root: nat, mem': Mem) {
    forall p: nat {:trigger KeepsTable(mem, role, root, mem', p)} :: KeepsTable(mem, role, root, mem', p)
  }

  /** Pages that are not tables of the tree do not matter to its map. */
  lemma {:induction false} TableFrame(mem: Mem, role: Roles, tab: Tab, root: nat, vpn: nat, level: nat, mem': Mem)
    requires TreesOk(mem, role, tab) && IsRoot(role, root) && vpn < MAXVPN && level <= 2
      && KeepsTree(mem, role, root, mem')
    ensures TableAt(mem', root, vpn, level) == TableAt(mem, root, vpn, level)
    decreases 2 - level
  {
    if level < 2 {
      TableFrame(mem, role, tab, root, vpn, level + 1, mem');
      TableRole(mem, role, tab, root, vpn, level + 1);
      var up := TableAt(mem, root, vpn, level + 1);
      assert up.Some? ==> KeepsTable(mem, role, root, mem', up.value);
    }
  }

  lemma {:induction false} LookupFrame(mem: Mem, role: Roles, tab: Tab, root: nat, vpn: nat, mem': Mem)
    requires TreesOk(mem, role, tab) && IsRoot(role, root) && vpn < MAXVPN && KeepsTree(mem, role, root, mem')
    ensures Lookup(mem', root, vpn) == Lookup(mem, root, vpn)
  {
    TableFrame(mem, role, tab, root, vpn, 0, mem');
    TableRole(mem, role, tab, root, vpn, 0);
    var t := TableAt(mem, root, vpn, 0);
    assert t.Some? ==> KeepsTable(mem, role, root, mem', t.value);
  }

  // ----- elementary changes -----

  /** Contents of pages outside all trees may change, and such pages may change
      hands, as long as user pages stay where they are mapped. */
  predicate LooseChange(mem: Mem, role: Roles, mem': Mem, role': Roles, p: nat) {
    && (p in role <==> p in role') && (p in mem <==> p in mem')
    && (p in mem && p in mem' && |mem[p]| == ENTRIES ==> |mem'[p]| == ENTRIES)
    && (p in role && p in role' && (InTree(role[p]) || InTree(role'[p])) ==>
        role'[p] == role[p] && p in mem && p in mem' && mem'[p] == mem[p])
    && (p in role && p in role' && role'[p].User? ==> role[p] == role'[p])
  }

  lemma {:induction false} LooseKeepsTrees(mem: Mem, role: Roles, tab: Tab, mem': Mem, role': Roles)
    requires TreesOk(mem, role, tab)
    requires forall p: nat {:trigger LooseChange(mem, role, mem', role', p)} :: LooseChange(mem, role, mem', role', p)
    ensures TreesOk(mem', role', tab)
    ensures forall root: nat :: KeepsTree(mem, role, root, mem')
  {
    forall root: nat, p: nat ensures KeepsTable(mem, role, root, mem', p) {
      assert LooseChange(mem, role, mem', role', p) && PageOk(mem, role, tab, p);
    }
    forall p: nat ensures PageOk(mem', role', tab, p) {
      assert LooseChange(mem, role, mem', role', p) && PageOk(mem, role, tab, p);
    }
    forall p: nat, i: nat ensures EntryOk(mem', role', p, i) {
      assert LooseChange(mem, role, mem', role', p) && EntryOk(mem, role, p, i);
      if p in mem && |mem[p]| == ENTRIES && i < ENTRIES {
        assert LooseChange(mem, role, mem', role', Ppn(mem[p][i]));
      }
    }
    forall q: nat ensures ParentOk(mem', role', tab, q) {
      assert LooseChange(mem, role, mem', role', q) && ParentOk(mem, role, tab, q);
      if q in role && role[q].Table? && role[q].level < 2 {
        assert LooseChange(mem, role, mem', role', tab[Loc(role[q].root, role[q].level + 1, role[q].prefix / ENTRIES)]);
      }
    }
    forall p: nat ensures UserOk(mem', role', p) {
      assert LooseChange(mem, role, mem', role', p) && UserOk(mem, role, p);
      if p in role' && role'[p].User? {
        assert LooseChange(mem, role, mem', role', role[p].root);
        LookupFrame(mem, role, tab, role[p].root, role[p].vpn, mem');
      }
    }
  }

  function SetEntry(page: Page, i: nat, e: nat): (r: Page)
    requires i < |page|
  {
    page[i := e]
  }

  // ----- a new table -----

  /** n becomes the table below entry i of table t. */
  function LinkedMem(mem: Mem, t: nat, i: nat, n: nat): (r: Mem)
    requires Readable(mem, t) && i < ENTRIES
  {
    mem[t := SetEntry(mem[t], i, Pte(n, PTE_V))]
  }

  predicate CanLink(mem: Mem, role: Roles, t: nat, i: nat, n: nat) {
    && t in role && role[t].Table? && 0 < role[t].level <= 2 && Readable(mem, t) && i < ENTRIES && !Present(mem[t][i])
    && (role[t].level == 2 ==> i < 256)
    && n in role && role[n] == Held && n in mem && mem[n] == seq(ENTRIES, _ => 0)
  }

  function LinkedLoc(role: Roles, t: nat, i: nat): (l: Loc)
    requires t in role && role[t].Table? && 0 < role[t].level
  {
    Loc(role[t].root, role[t].level - 1, role[t].prefix * ENTRIES + i)
  }

  function LinkedRole(role: Roles, t: nat, i: nat, n: nat): (r: Roles)
    requires t in role && role[t].Table? && 0 < role[t].level
  {
    var l := LinkedLoc(role, t, i);
    role[n := Table(l.root, l.level, l.prefix)]
  }

  /** No table has the new place yet. */
  lemma {:induction false} PlaceIsNew(mem: Mem, role: Roles, tab: Tab, t: nat, i: nat, n: nat, q: nat)
    requires TreesOk(mem, role, tab) && CanLink(mem, role, t, i, n)
    requires q in role && role[q].Table?
    ensures LocOf(role[q]) != LinkedLoc(role, t, i)
  {
    assert ParentOk(mem, role, tab, q) && PageOk(mem, role, tab, t);
  }

  lemma {:induction false} LinkKeepsParent(mem: Mem, role: Roles, tab: Tab, t: nat, i: nat, n: nat, q: nat)
    requires TreesOk(mem, role, tab) && CanLink(mem, role, t, i, n)
    requires forall q :: q in role && role[q].Dying? ==> role[q].root != role[t].root
    ensures ParentOk(LinkedMem(mem, t, i, n), LinkedRole(role, t, i, n), tab[LinkedLoc(role, t, i) := n], q)
  {
    var mem', role' := LinkedMem(mem, t, i, n), LinkedRole(role, t, i, n);
    PteRoundTrip(n, PTE_V);
    assert ParentOk(mem, role, tab, q) && PageOk(mem, role, tab, t) && PageOk(mem, role, tab, q);
    if q == n {
      assert role'[n].prefix / ENTRIES == role[t].prefix && role'[n].prefix % ENTRIES == i;
    } else if q in role && role[q].Table? && role[q].level < 2 {
      PlaceIsNew(mem, role, tab, t, i, n, q);
      var up := Loc(role[q].root, role[q].level + 1, role[q].prefix / ENTRIES);
      assert PageOk(mem, role, tab, tab[up]);
      assert up != LinkedLoc(role, t, i) by {
        if role[tab[up]].Table? { PlaceIsNew(mem, role, tab, t, i, n, tab[up]); }
      }
      assert tab[up] == t ==> role[q].prefix % ENTRIES != i;
    }
  }

  lemma {:induction false} LinkKeepsPage(mem: Mem, role: Roles, tab: Tab, t: nat, i: nat, n: nat, p: nat)
    requires TreesOk(mem, role, tab) && CanLink(mem, role, t, i, n)
    requires forall q :: q in role && role[q].Dying? ==> role[q].root != role[t].root
    ensures PageOk(LinkedMem(mem, t, i, n), LinkedRole(role, t, i, n), tab[LinkedLoc(role, t, i) := n], p)
  {
    var l := LinkedLoc(role, t, i);
    assert PageOk(mem, role, tab, t) && PrefixOk(l.level, l.prefix) && PageOk(mem, role, tab, p);
    if p in role && role[p].Table? { PlaceIsNew(mem, role, tab, t, i, n, p); }
  }

  lemma {:induction false} LinkKeepsEntry(mem: Mem, role: Roles, tab: Tab, t: nat, i: nat, n: nat, p: nat, k: nat)
    requires TreesOk(mem, role, tab) && CanLink(mem, role, t, i, n)
    ensures EntryOk(LinkedMem(mem, t, i, n), LinkedRole(role, t, i, n), p, k)
  {
    PteRoundTrip(n, PTE_V);
    assert EntryOk(mem, role, p, k) && PageOk(mem, role, tab, p) && PageOk(mem, role, tab, t);
  }

  lemma {:induction false} LinkKeepsTrees(mem: Mem, role: Roles, tab: Tab, t: nat, i: nat, n: nat)
    requires TreesOk(mem, role, tab) && CanLink(mem, role, t, i, n)
    requires forall q :: q in role && role[q].Dying? ==> role[q].root != role[t].root
    ensures TreesOk(LinkedMem(mem, t, i, n), LinkedRole(role, t, i, n), tab[LinkedLoc(role, t, i) := n])
  {
    var l := LinkedLoc(role, t, i);
    var mem', role', tab' := LinkedMem(mem, t, i, n), LinkedRole(role, t, i, n), tab[l := n];
    forall p: nat ensures PageOk(mem', role', tab', p) {
      LinkKeepsPage(mem, role, tab, t, i, n, p);
    }
    forall p: nat, k: nat ensures EntryOk(mem', role', p, k) {
      LinkKeepsEntry(mem, role, tab, t, i, n, p, k);
    }
    hide PageOk, EntryOk, ParentOk;
    forall q: nat ensures ParentOk(mem', role', tab', q) {
      LinkKeepsParent(mem, role, tab, t, i, n, q);
    }
    forall p: nat ensures UserOk(mem', role', p) {
      assert UserOk(mem, role, p);
      if p in role && role[p].User? {
        LinkKeepsMap(mem, role, tab, t, i, n, role[p].root, role[p].vpn);
      }
    }
  }

  /** An empty new table changes no translation, in any tree. */
  lemma {:induction false} LinkKeepsMap(mem: Mem, role: Roles, tab: Tab, t: nat, i: nat, n: nat, root: nat, vpn: nat)
    requires TreesOk(mem, role, tab) && CanLink(mem, role, t, i, n) && IsRoot(role, root) && vpn < MAXVPN
    ensures Lookup(LinkedMem(mem, t, i, n), root, vpn) == Lookup(mem, root, vpn)
  {
    var mem' := LinkedMem(mem, t, i, n);
    PteRoundTrip(n, PTE_V);
    TableRole(mem, role, tab, root, vpn, 1);
    TableRole(mem, role, tab, root, vpn, 0);
    assert PageOk(mem, role, tab, root) && PageOk(mem, role, tab, t) && PageOk(mem, role, tab, n);
    assert TableAt(mem, root, vpn, 2) == TableAt(mem', root, vpn, 2) == Some(root);
    var t1, t1' := TableAt(mem, root, vpn, 1), TableAt(mem', root, vpn, 1);
    if t == root && i == Index(2, vpn) {
      assert t1.None? && t1' == Some(n);
      assert TableAt(mem', root, vpn, 0).None?;
    } else {
      assert t1' == t1;
      if t1.Some? && t == t1.value && i == Index(1, vpn) {
        assert TableAt(mem, root, vpn, 0).None? && TableAt(mem', root, vpn, 0) == Some(n);
      } else {
        assert TableAt(mem', root, vpn, 0) == TableAt(mem, root, vpn, 0);
      }
    }
  }

  // ----- a leaf entry -----

  function LeafMem(mem: Mem, t: nat, i: nat, e: nat): (r: Mem)
    requires Readable(mem, t) && i < ENTRIES
  {
    mem[t := SetEntry(mem[t], i, e)]
  }

  /** Pages change hands with the leaf entry for vpn: outside it, roles of user
      pages stay; a page of user memory at vpn must be the one e maps. */
  predicate LeafChange(role: Roles, role': Roles, root: nat, vpn: nat, e: nat, p: nat) {
    && (p in role <==> p in role')
    && (p in role && p in role' && (InTree(role[p]) || InTree(role'[p])) ==> role'[p] == role[p])
    && (p in role && p in role' && role'[p].User? ==>
          if role'[p] == User(root, vpn) then Present(e) && Ppn(e) == p else role[p] == role'[p])
  }

  ghost predicate LeafChanges(role: Roles, role': Roles, root: nat, vpn: nat, e: nat) {
    forall p: nat {:trigger LeafChange(role, role', root, vpn, e, p)} :: LeafChange(role, role', root, vpn, e, p)
  }

  /** Writing the leaf entry of vpn changes the translation of vpn alone. */
  lemma {:induction false} LeafMap(mem: Mem, role: Roles, tab: Tab, root: nat, vpn: nat, t: nat, e: nat, root': nat,
      vpn': nat)
    requires TreesOk(mem, role, tab) && IsRoot(role, root) && vpn < MAXVPN && TableAt(mem, root, vpn, 0) == Some(t)
    requires IsRoot(role, root') && vpn' < MAXVPN
    ensures t in role && role[t] == Table(root, 0, Prefix(0, vpn)) && Readable(mem, t)
    ensures Lookup(LeafMem(mem, t, Index(0, vpn), e), root', vpn') ==
      if root' == root && vpn' == vpn then (if Present(e) then Some(e) else None) else Lookup(mem, root', vpn')
  {
    TableRole(mem, role, tab, root, vpn, 0);
    var mem' := LeafMem(mem, t, Index(0, vpn), e);
    TableRole(mem, role, tab, root', vpn', 1);
    TableRole(mem, role, tab, root', vpn', 0);
    assert TableAt(mem', root', vpn', 2) == TableAt(mem, root', vpn', 2);
    assert TableAt(mem', root', vpn', 1) == TableAt(mem, root', vpn', 1);
    assert TableAt(mem', root', vpn', 0) == TableAt(mem, root', vpn', 0);
    SamePage(vpn, vpn');
  }

  lemma {:induction false} LeafKeepsTrees(mem: Mem, role: Roles, tab: Tab, root: nat, vpn: nat, t: nat, e: nat,
      role': Roles)
    requires TreesOk(mem, role, tab) && IsRoot(role, root) && vpn < MAXVPN && TableAt(mem, root, vpn, 0) == Some(t)
    requires Present(e) ==> IsLeaf(e)
    requires LeafChanges(role, role', root, vpn, e)
    ensures Readable(mem, t) && TreesOk(LeafMem(mem, t, Index(0, vpn), e), role', tab)
  {
    TableRole(mem, role, tab, root, vpn, 0);
    var mem' := LeafMem(mem, t, Index(0, vpn), e);
    forall p: nat ensures PageOk(mem', role', tab, p) {
      assert LeafChange(role, role', root, vpn, e, p) && PageOk(mem, role, tab, p);
    }
    forall p: nat, i: nat ensures EntryOk(mem', role', p, i) {
      assert LeafChange(role, role', root, vpn, e, p) && EntryOk(mem, role, p, i) && PageOk(mem, role, tab, p);
      if Readable(mem, p) && i < ENTRIES {
        assert LeafChange(role, role', root, vpn, e, Ppn(mem[p][i]));
      }
    }
    forall q: nat ensures ParentOk(mem', role', tab, q) {
      assert LeafChange(role, role', root, vpn, e, q) && ParentOk(mem, role, tab, q);
      if q in role && role[q].Table? && role[q].level < 2 {
        assert LeafChange(role, role', root, vpn, e,
            tab[Loc(role[q].root, role[q].level + 1, role[q].prefix / ENTRIES)]);
      }
    }
    forall p: nat ensures UserOk(mem', role', p) {
      assert LeafChange(role, role', root, vpn, e, p) && UserOk(mem, role, p);
      if p in role' && role'[p].User? {
        assert LeafChange(role, role', root, vpn, e, role'[p].root);
        LeafMap(mem, role, tab, root, vpn, t, e, role'[p].root, role'[p].vpn);
      }
    }
  }

  /** The tree stays well-formed exactly if the entry is absent or has R, W or X;
      without these, the tree's other readers would take it for a pointer. */
  lemma {:induction false} LeafExact(mem: Mem, role: Roles, tab: Tab, root: nat, vpn: nat, t: nat, e: nat, role': Roles)
    requires TreesOk(mem, role, tab) && IsRoot(role, root) && vpn < MAXVPN && TableAt(mem, root, vpn, 0) == Some(t)
    requires LeafChanges(role, role', root, vpn, e)
    ensures Readable(mem, t) && (TreesOk(LeafMem(mem, t, Index(0, vpn), e), role', tab) <==> (Present(e) ==> IsLeaf(e)))
  {
    TableRole(mem, role, tab, root, vpn, 0);
    assert LeafChange(role, role', root, vpn, e, t);
    var mem' := LeafMem(mem, t, Index(0, vpn), e);
    if Present(e) ==> IsLeaf(e) {
      LeafKeepsTrees(mem, role, tab, root, vpn, t, e, role');
    } else {
      assert !EntryOk(mem', role', t, Index(0, vpn));
    }
  }
}
