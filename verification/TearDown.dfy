/** Taking a page-table tree down: freewalk's recursion and what it frees. */
module TearDown {
  import opened PageTable
  import opened AddressSpace

  // ----- subtrees -----

  /** The table at (l, pf) is the one at (level, prefix) or below it. */
  predicate Under(level: nat, prefix: nat, l: nat, pf: nat) {
    l <= level <= 2 &&
    if level == l then pf == prefix
    else if level == l + 1 then pf / ENTRIES == prefix
    else pf / ENTRIES / ENTRIES == prefix
  }

  /** Which child of a table at this level leads to (l, pf). */
  function Child(level: nat, l: nat, pf: nat): (i: nat)
    ensures i < ENTRIES
  {
    if level == l + 1 then pf % ENTRIES else pf / ENTRIES % ENTRIES
  }

  lemma {:induction false} ChildUnder(level: nat, prefix: nat, l: nat, pf: nat, i: nat)
    requires 0 < level <= 2 && i < ENTRIES
    ensures Under(level - 1, prefix * ENTRIES + i, l, pf) <==>
      l < level && Under(level, prefix, l, pf) && Child(level, l, pf) == i
  {
    assert (prefix * ENTRIES + i) / ENTRIES == prefix && (prefix * ENTRIES + i) % ENTRIES == i;
    assert pf == pf / ENTRIES * ENTRIES + pf % ENTRIES;
    assert pf / ENTRIES == pf / ENTRIES / ENTRIES * ENTRIES + pf / ENTRIES % ENTRIES;
  }

  /** A table of the subtree at (level, prefix) of the tree at root. */
  predicate InSub(role: Roles, p: nat, root: nat, level: nat, prefix: nat) {
    p in role && role[p].Table? && role[p].root == root && Under(level, prefix, role[p].level, role[p].prefix)
  }

  // ----- premises of freewalk -----

  predicate NoUserAt(role: Roles, root: nat, p: nat) {
    p in role && role[p].User? ==> role[p].root != root
  }

  /** No page of user memory belongs to the tree any more. */
  ghost predicate NoUser(role: Roles, root: nat) {
    forall p: nat {:trigger NoUserAt(role, root, p)} :: NoUserAt(role, root, p)
  }

  predicate DyingAt(role: Roles, root: nat, level: nat, p: nat) {
    p in role && role[p].Dying? ==> role[p].root == root && role[p].level > level
  }

  /** Only tables above this level of this tree are being taken down. */
  ghost predicate DyingAbove(role: Roles, root: nat, level: nat) {
    forall p: nat {:trigger DyingAt(role, root, level, p)} :: DyingAt(role, root, level, p)
  }

  /** freewalk may start at t: the table above it, if any, is being taken down. */
  predicate CanFree(role: Roles, tab: Tab, t: nat) {
    && t in role && role[t].Table? && role[t].level <= 2
    && (role[t].level < 2 ==>
          var up := Loc(role[t].root, role[t].level + 1, role[t].prefix / ENTRIES);
          up in tab && tab[up] in role && role[tab[up]].Dying?)
  }

  // ----- the steps -----

  function DyingRole(role: Roles, t: nat): (r: Roles)
    requires t in role && role[t].Table?
  {
    role[t := Dying(role[t].root, role[t].level, role[t].prefix)]
  }

  /** A table starts being taken down. */
  lemma {:induction false} StartDying(mem: Mem, role: Roles, tab: Tab, t: nat)
    requires TreesOk(mem, role, tab) && CanFree(role, tab, t) && NoUser(role, role[t].root)
    ensures TreesOk(mem, DyingRole(role, t), tab)
  {
    var role' := DyingRole(role, t);
    assert PageOk(mem, role, tab, t);
    forall p: nat ensures PageOk(mem, role', tab, p) && ParentOk(mem, role', tab, p) && UserOk(mem, role', p) {
      assert PageOk(mem, role, tab, p) && ParentOk(mem, role, tab, p) && UserOk(mem, role, p)
        && NoUserAt(role, role[t].root, p);
    }
    forall p: nat, i: nat ensures EntryOk(mem, role', p, i) {
      assert EntryOk(mem, role, p, i) && PageOk(mem, role, tab, p);
      if p in role && role[p].Table? && Readable(mem, p) && i < ENTRIES && Present(mem[p][i]) && role[p].level > 0
        && Ppn(mem[p][i]) == t {
        assert role[t].prefix / ENTRIES == role[p].prefix;
      }
    }
  }

  /** pagetable[i] = 0 once nothing hangs below entry i. */
  lemma {:induction false} ClearChild(mem: Mem, role: Roles, tab: Tab, t: nat, i: nat, l: nat, pf: nat)
    requires TreesOk(mem, role, tab) && t in role && role[t].Dying? && i < ENTRIES && Readable(mem, t)
    requires role[t].level == l + 1 && pf == role[t].prefix * ENTRIES + i
      && forall q :: !InSub(role, q, role[t].root, l, pf)
    ensures TreesOk(mem[t := SetEntry(mem[t], i, 0)], role, tab)
  {
    var mem' := mem[t := SetEntry(mem[t], i, 0)];
    forall p: nat ensures PageOk(mem', role, tab, p) {
      assert PageOk(mem, role, tab, p);
    }
    forall p: nat, j: nat ensures EntryOk(mem', role, p, j) {
      assert EntryOk(mem, role, p, j);
    }
    forall q: nat ensures ParentOk(mem', role, tab, q) {
      assert ParentOk(mem, role, tab, q) && PageOk(mem, role, tab, t);
      if q in role && role[q].Table? && role[q].level < 2
        && tab[Loc(role[q].root, role[q].level + 1, role[q].prefix / ENTRIES)] == t {
        assert !InSub(role, q, role[t].root, l, pf);
      }
    }
    forall p: nat ensures UserOk(mem', role, p) {
      assert UserOk(mem, role, p);
      if p in role && role[p].User? {
        forall q: nat ensures KeepsTable(mem, role, role[p].root, mem', q) {
          assert PageOk(mem, role, tab, q);
        }
        LookupFrame(mem, role, tab, role[p].root, role[p].vpn, mem');
      }
    }
  }

  /** With nothing left below it, the table is an ordinary page again. */
  lemma {:induction false} FinishDying(mem: Mem, role: Roles, tab: Tab, t: nat)
    requires TreesOk(mem, role, tab) && t in role && role[t].Dying?
    requires forall q :: InSub(role, q, role[t].root, role[t].level, role[t].prefix) ==> role[q].level >= role[t].level
    ensures TreesOk(mem, role[t := Held], tab)
  {
    var role' := role[t := Held];
    forall p: nat ensures PageOk(mem, role', tab, p) && UserOk(mem, role', p) {
      assert PageOk(mem, role, tab, p) && UserOk(mem, role, p);
    }
    forall p: nat, j: nat ensures EntryOk(mem, role', p, j) {
      assert EntryOk(mem, role, p, j);
    }
    forall q: nat ensures ParentOk(mem, role', tab, q) {
      assert ParentOk(mem, role, tab, q) && PageOk(mem, role, tab, t);
      if q in role && role[q].Table? && role[q].level < 2 {
        assert tab[Loc(role[q].root, role[q].level + 1, role[q].prefix / ENTRIES)] == t ==>
          InSub(role, q, role[t].root, role[t].level, role[t].prefix);
      }
    }
  }

  /** What hangs below entry i makes that entry present. */
  lemma {:induction false} BelowPresent(mem: Mem, role: Roles, tab: Tab, t: nat, i: nat, q: nat)
    requires TreesOk(mem, role, tab) && t in role && InTree(role[t]) && role[t].level > 0 && i < ENTRIES
      && Readable(mem, t)
    requires DyingAbove(role, role[t].root, role[t].level - 1)
    requires InSub(role, q, role[t].root, role[t].level - 1, role[t].prefix * ENTRIES + i)
    ensures Present(mem[t][i])
  {
    var level, prefix := role[t].level, role[t].prefix;
    assert PageOk(mem, role, tab, t);
    ChildUnder(level, prefix, role[q].level, role[q].prefix, i);
    assert ParentOk(mem, role, tab, q) && PageOk(mem, role, tab, q);
    if role[q].level + 2 == level {
      var up := tab[Loc(role[q].root, role[q].level + 1, role[q].prefix / ENTRIES)];
      assert DyingAt(role, role[t].root, level - 1, up) && ParentOk(mem, role, tab, up);
    }
  }

  // ----- what has been freed -----

  predicate Stays(m0: Mem, role0: Roles, m1: Mem, role1: Roles, p: nat) {
    p in role0 && p in role1 && role1[p] == role0[p] && p in m0 && p in m1 && m1[p] == m0[p]
  }

  predicate FreedAt(m0: Mem, role0: Roles, m1: Mem, role1: Roles, root: nat, level: nat, prefix: nat, p: nat) {
    && (p in role0 <==> p in role1)
    && (p in role0 && p in role1 ==>
          if InSub(role0, p, root, level, prefix) then role1[p] == Free else Stays(m0, role0, m1, role1, p))
  }

  /** Exactly the tables of the subtree went to the free list; all other pages
      kept their owners and their contents. */
  ghost predicate FreedSub(m0: Mem, role0: Roles, m1: Mem, role1: Roles, root: nat, level: nat, prefix: nat) {
    forall p: nat {:trigger FreedAt(m0, role0, m1, role1, root, level, prefix, p)} ::
      FreedAt(m0, role0, m1, role1, root, level, prefix, p)
  }

  /** p hangs below one of the first i entries of the table at (level, prefix). */
  predicate Before(role: Roles, p: nat, root: nat, level: nat, prefix: nat, i: nat) {
    InSub(role, p, root, level, prefix) && role[p].level < level && Child(level, role[p].level, role[p].prefix) < i
  }

  predicate PartAt(m0: Mem, role0: Roles, m1: Mem, role1: Roles, root: nat, level: nat, prefix: nat, t: nat, i: nat,
      p: nat)
  {
    && (p in role0 <==> p in role1)
    && (p in role0 && p in role1 && p != t ==>
          if Before(role0, p, root, level, prefix, i) then role1[p] == Free else Stays(m0, role0, m1, role1, p))
  }

  /** The same while the loop over the entries of t has done i of them. */
  ghost predicate Part(m0: Mem, role0: Roles, m1: Mem, role1: Roles, root: nat, level: nat, prefix: nat, t: nat,
      i: nat)
  {
    forall p: nat {:trigger PartAt(m0, role0, m1, role1, root, level, prefix, t, i, p)} ::
      PartAt(m0, role0, m1, role1, root, level, prefix, t, i, p)
  }

  predicate ShutAt(m0: Mem, m1: Mem, t: nat, i: nat, j: nat) {
    j < ENTRIES && Readable(m0, t) && Readable(m1, t) ==> if j < i then !Present(m1[t][j]) else m1[t][j] == m0[t][j]
  }

  ghost predicate Shut(m0: Mem, m1: Mem, t: nat, i: nat) {
    Readable(m0, t) && Readable(m1, t) && forall j: nat {:trigger ShutAt(m0, m1, t, i, j)} :: ShutAt(m0, m1, t, i, j)
  }

  predicate LeafAt(mem: Mem, role: Roles, root: nat, level: nat, prefix: nat, p: nat, j: nat) {
    InSub(role, p, root, level, prefix) && role[p].level == 0 && Readable(mem, p) && j < ENTRIES && Present(mem[p][j])
  }

  ghost predicate NoLeaf(mem: Mem, role: Roles, root: nat, level: nat, prefix: nat) {
    forall p: nat, j: nat {:trigger LeafAt(mem, role, root, level, prefix, p, j)} ::
      !LeafAt(mem, role, root, level, prefix, p, j)
  }

  /** No leaf below the first i entries. */
  predicate LeafBefore(mem: Mem, role: Roles, root: nat, level: nat, prefix: nat, i: nat, p: nat, j: nat) {
    LeafAt(mem, role, root, level, prefix, p, j) && if level == 0 then j < i else Child(level, 0, role[p].prefix) < i
  }

  ghost predicate NoLeafBefore(mem: Mem, role: Roles, root: nat, level: nat, prefix: nat, i: nat) {
    forall p: nat, j: nat {:trigger LeafBefore(mem, role, root, level, prefix, i, p, j)} ::
      !LeafBefore(mem, role, root, level, prefix, i, p, j)
  }

  /** freewalk at t started in (m0, role0) and has done i entries. */
  ghost predicate Progress(m0: Mem, role0: Roles, m1: Mem, role1: Roles, root: nat, level: nat, prefix: nat, t: nat,
      i: nat)
  {
    && Part(m0, role0, m1, role1, root, level, prefix, t, i) && Shut(m0, m1, t, i)
    && NoLeafBefore(m0, role0, root, level, prefix, i)
    && t in role1 && role1[t] == Dying(root, level, prefix)
  }

  /** What freewalk needs to know about where it started. */
  ghost predicate Start(m0: Mem, role0: Roles, tab: Tab, root: nat, level: nat, prefix: nat, t: nat) {
    && TreesOk(m0, role0, tab) && level <= 2 && t in role0 && role0[t] == Table(root, level, prefix)
    && CanFree(role0, tab, t) && NoUser(role0, root) && DyingAbove(role0, root, level)
  }

  lemma {:induction false} Begun(m0: Mem, role0: Roles, tab: Tab, root: nat, level: nat, prefix: nat, t: nat)
    requires Start(m0, role0, tab, root, level, prefix, t)
    ensures Progress(m0, role0, m0, DyingRole(role0, t), root, level, prefix, t, 0)
  {
    var role1 := DyingRole(role0, t);
    assert PageOk(m0, role0, tab, t);
    forall p: nat ensures PartAt(m0, role0, m0, role1, root, level, prefix, t, 0, p) {
      assert PageOk(m0, role0, tab, p);
    }
  }

  /** The table below entry i is intact and may be taken down. */
  lemma {:induction false} ChildReady(m0: Mem, role0: Roles, tab: Tab, m1: Mem, role1: Roles, root: nat, level: nat,
      prefix: nat, t: nat, i: nat, l: nat, pf: nat)
    requires Start(m0, role0, tab, root, level, prefix, t) && Progress(m0, role0, m1, role1, root, level, prefix, t, i)
    requires TreesOk(m1, role1, tab) && i < ENTRIES && level == l + 1 && pf == prefix * ENTRIES + i && Present(m0[t][i])
    ensures m1[t][i] == m0[t][i] && !IsLeaf(m0[t][i]) && Start(m1, role1, tab, root, l, pf, Ppn(m0[t][i]))
  {
    assert EntryOk(m0, role0, t, i) && PageOk(m0, role0, tab, t) && ShutAt(m0, m1, t, i, i);
    var c := Ppn(m0[t][i]);
    assert role0[c] == Table(root, l, pf);
    ChildUnder(level, prefix, l, pf, i);
    assert Under(l, pf, l, pf) && Child(level, l, pf) == i;
    assert PartAt(m0, role0, m1, role1, root, level, prefix, t, i, c);
    assert role1[c] == role0[c] && pf / ENTRIES == prefix;
    assert PageOk(m1, role1, tab, t) && tab[Loc(root, level, prefix)] == t;
    forall p: nat ensures NoUserAt(role1, root, p) && DyingAt(role1, root, l, p) {
      assert PartAt(m0, role0, m1, role1, root, level, prefix, t, i, p) && NoUserAt(role0, root, p)
        && DyingAt(role0, root, level, p);
    }
  }

  /** Freeing the subtree below entry i. */
  lemma {:induction false} ChildFreed(m0: Mem, role0: Roles, tab: Tab, m1: Mem, role1: Roles, m2: Mem, role2: Roles,
      root: nat, level: nat, prefix: nat, t: nat, i: nat, l: nat, pf: nat)
    requires Start(m0, role0, tab, root, level, prefix, t) && Progress(m0, role0, m1, role1, root, level, prefix, t, i)
    requires i < ENTRIES && level == l + 1 && pf == prefix * ENTRIES + i && FreedSub(m1, role1, m2, role2, root, l, pf)
    ensures forall q :: !InSub(role2, q, root, l, pf)
    ensures Part(m0, role0, m2, role2, root, level, prefix, t, i + 1)
    ensures t in role2 && role2[t] == Dying(root, level, prefix) && t in m1 && t in m2 && m2[t] == m1[t]
  {
    var i1 := i + 1;
    assert FreedAt(m1, role1, m2, role2, root, l, pf, t);
    forall q ensures !InSub(role2, q, root, l, pf) {
      if q >= 0 { assert FreedAt(m1, role1, m2, role2, root, l, pf, q); }
    }
    forall p: nat ensures PartAt(m0, role0, m2, role2, root, level, prefix, t, i1, p) {
      assert PartAt(m0, role0, m1, role1, root, level, prefix, t, i, p)
        && FreedAt(m1, role1, m2, role2, root, l, pf, p);
      if p in role0 && InTree(role0[p]) {
        ChildUnder(level, prefix, role0[p].level, role0[p].prefix, i);
      }
    }
  }

  /** No leaf below entry i, so none below the first i + 1. */
  lemma {:induction false} ChildNoLeaf(m0: Mem, role0: Roles, tab: Tab, m1: Mem, role1: Roles, root: nat, level: nat,
      prefix: nat, t: nat, i: nat, l: nat, pf: nat)
    requires Start(m0, role0, tab, root, level, prefix, t) && Progress(m0, role0, m1, role1, root, level, prefix, t, i)
    requires i < ENTRIES && level == l + 1 && pf == prefix * ENTRIES + i && NoLeaf(m1, role1, root, l, pf)
    ensures NoLeafBefore(m0, role0, root, level, prefix, i + 1)
  {
    var i1 := i + 1;
    forall p: nat, j: nat ensures !LeafBefore(m0, role0, root, level, prefix, i1, p, j) {
      assert !LeafBefore(m0, role0, root, level, prefix, i, p, j) && !LeafAt(m1, role1, root, l, pf, p, j);
      if LeafAt(m0, role0, root, level, prefix, p, j) {
        assert PartAt(m0, role0, m1, role1, root, level, prefix, t, i, p);
        ChildUnder(level, prefix, role0[p].level, role0[p].prefix, i);
      }
    }
  }

  lemma {:induction false} EntryShut(m0: Mem, m1: Mem, t: nat, i: nat)
    requires Shut(m0, m1, t, i) && i < ENTRIES
    ensures Shut(m0, m1[t := SetEntry(m1[t], i, 0)], t, i + 1)
    ensures !Present(m0[t][i]) ==> Shut(m0, m1, t, i + 1)
  {
    var i1, m2 := i + 1, m1[t := SetEntry(m1[t], i, 0)];
    assert ShutAt(m0, m1, t, i, i);
    forall j: nat ensures ShutAt(m0, m2, t, i1, j) && (!Present(m0[t][i]) ==> ShutAt(m0, m1, t, i1, j)) {
      assert ShutAt(m0, m1, t, i, j);
    }
  }

  /** Nothing hangs below an empty entry. */
  lemma {:induction false} EntrySkipped(m0: Mem, role0: Roles, tab: Tab, m1: Mem, role1: Roles, root: nat, level: nat,
      prefix: nat, t: nat, i: nat)
    requires Start(m0, role0, tab, root, level, prefix, t) && Progress(m0, role0, m1, role1, root, level, prefix, t, i)
    requires i < ENTRIES && !Present(m0[t][i])
    ensures Progress(m0, role0, m1, role1, root, level, prefix, t, i + 1)
  {
    var i1 := i + 1;
    EntryShut(m0, m1, t, i);
    assert PageOk(m0, role0, tab, t);
    forall p: nat ensures Before(role0, p, root, level, prefix, i1) == Before(role0, p, root, level, prefix, i) {
      if level > 0 { NothingBelow(m0, role0, tab, root, level, prefix, t, i, p); }
    }
    forall p: nat ensures PartAt(m0, role0, m1, role1, root, level, prefix, t, i1, p) {
      assert PartAt(m0, role0, m1, role1, root, level, prefix, t, i, p);
    }
    forall p: nat, j: nat ensures !LeafBefore(m0, role0, root, level, prefix, i1, p, j) {
      assert !LeafBefore(m0, role0, root, level, prefix, i, p, j)
        && Before(role0, p, root, level, prefix, i1) == Before(role0, p, root, level, prefix, i);
      if LeafAt(m0, role0, root, level, prefix, p, j) && level == 0 {
        assert PageOk(m0, role0, tab, p);
      }
    }
  }

  lemma {:induction false} NothingBelow(m0: Mem, role0: Roles, tab: Tab, root: nat, level: nat, prefix: nat, t: nat,
      i: nat, p: nat)
    requires Start(m0, role0, tab, root, level, prefix, t) && i < ENTRIES && Readable(m0, t) && !Present(m0[t][i])
      && level > 0
    ensures Before(role0, p, root, level, prefix, i + 1) == Before(role0, p, root, level, prefix, i)
  {
    var l := level - 1;
    forall q: nat ensures DyingAt(role0, root, l, q) {
      assert DyingAt(role0, root, level, q);
    }
    if Before(role0, p, root, level, prefix, i + 1) {
      ChildUnder(level, prefix, role0[p].level, role0[p].prefix, i);
      assert !InSub(role0, p, root, level - 1, prefix * ENTRIES + i) by {
        if InSub(role0, p, root, level - 1, prefix * ENTRIES + i) { BelowPresent(m0, role0, tab, t, i, p); }
      }
    }
  }

  /** After the last entry nothing hangs below t any more. */
  lemma {:induction false} AllShut(m0: Mem, role0: Roles, tab: Tab, m1: Mem, role1: Roles, root: nat, level: nat,
      prefix: nat, t: nat)
    requires Start(m0, role0, tab, root, level, prefix, t)
      && Progress(m0, role0, m1, role1, root, level, prefix, t, ENTRIES)
    ensures forall q :: InSub(role1, q, root, level, prefix) ==> role1[q].level >= level
    ensures NoLeaf(m0, role0, root, level, prefix)
  {
    forall q | InSub(role1, q, root, level, prefix) ensures role1[q].level >= level {
      if q >= 0 { assert PartAt(m0, role0, m1, role1, root, level, prefix, t, ENTRIES, q); }
    }
    forall p: nat, j: nat ensures !LeafAt(m0, role0, root, level, prefix, p, j) {
      assert !LeafBefore(m0, role0, root, level, prefix, ENTRIES, p, j);
    }
  }

  lemma {:induction false} TableFreed(m0: Mem, role0: Roles, tab: Tab, m1: Mem, role1: Roles, m2: Mem, root: nat,
      level: nat, prefix: nat, t: nat)
    requires Start(m0, role0, tab, root, level, prefix, t)
      && Progress(m0, role0, m1, role1, root, level, prefix, t, ENTRIES)
    requires t in m2 && m2 == m1[t := m2[t]]
    ensures FreedSub(m0, role0, m2, role1[t := Free], root, level, prefix)
  {
    var role2 := role1[t := Free];
    forall p: nat ensures FreedAt(m0, role0, m2, role2, root, level, prefix, p) {
      assert PartAt(m0, role0, m1, role1, root, level, prefix, t, ENTRIES, p) && PageOk(m0, role0, tab, p)
        && PageOk(m0, role0, tab, t);
    }
  }

  lemma {:induction false} LeafFound(m0: Mem, role0: Roles, tab: Tab, m1: Mem, role1: Roles, root: nat, level: nat,
      prefix: nat, t: nat, i: nat, l: nat, pf: nat, p: nat, j: nat)
    requires Start(m0, role0, tab, root, level, prefix, t) && Progress(m0, role0, m1, role1, root, level, prefix, t, i)
    requires i < ENTRIES && level == l + 1 && pf == prefix * ENTRIES + i && LeafAt(m1, role1, root, l, pf, p, j)
    ensures LeafAt(m0, role0, root, level, prefix, p, j)
  {
    assert PartAt(m0, role0, m1, role1, root, level, prefix, t, i, p);
    ChildUnder(level, prefix, role1[p].level, role1[p].prefix, i);
  }

  lemma {:induction false} ShutSame(m0: Mem, m1: Mem, m2: Mem, t: nat, i: nat)
    requires Shut(m0, m1, t, i) && t in m2 && m2[t] == m1[t]
    ensures Shut(m0, m2, t, i)
  {
    forall j: nat ensures ShutAt(m0, m2, t, i, j) {
      assert ShutAt(m0, m1, t, i, j);
    }
  }

  lemma {:induction false} PartClear(m0: Mem, role0: Roles, m1: Mem, role1: Roles, root: nat, level: nat, prefix: nat,
      t: nat, i: nat, page: Page)
    requires Part(m0, role0, m1, role1, root, level, prefix, t, i)
    ensures Part(m0, role0, m1[t := page], role1, root, level, prefix, t, i)
  {
    var m2 := m1[t := page];
    forall p: nat ensures PartAt(m0, role0, m2, role1, root, level, prefix, t, i, p) {
      assert PartAt(m0, role0, m1, role1, root, level, prefix, t, i, p);
    }
  }

  // ----- a whole tree -----

  lemma {:induction false} WholeTree(mem: Mem, role: Roles, tab: Tab, root: nat, p: nat)
    requires TreesOk(mem, role, tab)
    ensures InSub(role, p, root, 2, 0) <==> p in role && role[p].Table? && role[p].root == root
  {
    assert PageOk(mem, role, tab, p);
    if p in role && role[p].Table? {
      assert role[p].level == 0 ==> role[p].prefix / ENTRIES / ENTRIES == 0;
    }
  }

  lemma {:induction false} LeafPage(prefix: nat, j: nat)
    requires prefix < 0x2_0000 && j < ENTRIES
    ensures prefix * ENTRIES + j < MAXVPN && Prefix(0, prefix * ENTRIES + j) == prefix
      && Index(0, prefix * ENTRIES + j) == j
  {
  }

  /** freewalk meets a leaf exactly if something is still mapped. */
  lemma {:induction false} LeafIsMapping(mem: Mem, role: Roles, tab: Tab, root: nat)
    requires TreesOk(mem, role, tab) && NoneDying(role) && IsRoot(role, root)
    ensures NoLeaf(mem, role, root, 2, 0) <==> Unmapped(mem, root, 0, MAXVPN)
  {
    if NoLeaf(mem, role, root, 2, 0) {
      forall w: nat ensures UnmappedAt(mem, root, 0, MAXVPN, w) {
        if w < MAXVPN {
          TableRole(mem, role, tab, root, w, 0);
          var t := TableAt(mem, root, w, 0);
          if t.Some? {
            WholeTree(mem, role, tab, root, t.value);
            assert !LeafAt(mem, role, root, 2, 0, t.value, Index(0, w));
          }
        }
      }
    }
    if Unmapped(mem, root, 0, MAXVPN) {
      forall p: nat, j: nat ensures !LeafAt(mem, role, root, 2, 0, p, j) {
        var w := if p in role && role[p].Table? then role[p].prefix * ENTRIES + j else 0;
        assert UnmappedAt(mem, root, 0, MAXVPN, w);
        if LeafAt(mem, role, root, 2, 0, p, j) {
          LeafLookup(mem, role, tab, root, p, j);
        }
      }
    }
  }

  lemma {:induction false} LeafLookup(mem: Mem, role: Roles, tab: Tab, root: nat, p: nat, j: nat)
    requires TreesOk(mem, role, tab) && NoneDying(role) && IsRoot(role, root) && LeafAt(mem, role, root, 2, 0, p, j)
    ensures role[p].prefix * ENTRIES + j < MAXVPN && Lookup(mem, root, role[p].prefix * ENTRIES + j).Some?
  {
    assert PageOk(mem, role, tab, p);
    assert forall q :: q in role ==> NotDying(role, q);
    LeafPage(role[p].prefix, j);
    TableFound(mem, role, tab, root, role[p].prefix * ENTRIES + j, 0, p);
  }

  predicate Belongs(r: Role, root: nat) {
    (r.Table? || r.User?) && r.root == root
  }

  predicate TornAt(role: Roles, role': Roles, root: nat, p: nat) {
    && (p in role <==> p in role')
    && (p in role && p in role' ==> role'[p] == if Belongs(role[p], root) then Free else role[p])
  }

  /** The address space is gone: its tables and its user memory are free, each
      page exactly once; no other page changed hands, no data changed, and every
      other address space translates as before. */
  ghost predicate TornDown(m0: Mem, role0: Roles, m1: Mem, role1: Roles, root: nat) {
    && (forall p: nat {:trigger TornAt(role0, role1, root, p)} :: TornAt(role0, role1, root, p))
    && DataKept(m0, role0, m1, role1) && SameMaps(m0, m1, role1)
  }

  /** Pages of user memory without a mapping. */
  function DisownedRole(role: Roles, root: nat): (r: Roles) {
    map p | p in role :: if role[p].User? && role[p].root == root then Held else role[p]
  }

  lemma {:induction false} Disowned(mem: Mem, role: Roles, tab: Tab, freelist: seq<nat>, root: nat)
    requires TreesOk(mem, role, tab) && FreeListOk(freelist, role) && NoneDying(role) && IsRoot(role, root)
    ensures TreesOk(mem, DisownedRole(role, root), tab) && FreeListOk(freelist, DisownedRole(role, root))
      && NoneDying(DisownedRole(role, root))
    ensures NoUser(DisownedRole(role, root), root) && IsRoot(DisownedRole(role, root), root)
    ensures Unmapped(mem, root, 0, MAXVPN) ==> DisownedRole(role, root) == role
  {
    var role' := DisownedRole(role, root);
    forall p: nat ensures LooseChange(mem, role, mem, role', p) && FreeOk(freelist, role', p) && NotDying(role', p)
      && NoUserAt(role', root, p) {
      assert PageOk(mem, role, tab, p) && FreeOk(freelist, role, p) && NotDying(role, p);
    }
    LooseKeepsTrees(mem, role, tab, mem, role');
    if Unmapped(mem, root, 0, MAXVPN) {
      forall p | p in role ensures role'[p] == role[p] {
        var w := if role[p].User? then role[p].vpn else 0;
        assert UserOk(mem, role, p) && UnmappedAt(mem, root, 0, MAXVPN, w);
      }
    }
  }

  lemma {:induction false} RootStart(mem: Mem, role: Roles, tab: Tab, root: nat)
    requires TreesOk(mem, role, tab) && NoneDying(role) && IsRoot(role, root) && NoUser(role, root)
    ensures Start(mem, role, tab, root, 2, 0, root)
  {
    forall p: nat ensures DyingAt(role, root, 2, p) {
      assert NotDying(role, p);
    }
  }

  /** Freeing the tables of a tree with nothing mapped. */
  lemma {:induction false} FreedWhole(m0: Mem, role0: Roles, tab: Tab, m1: Mem, role1: Roles, root: nat)
    requires TreesOk(m0, role0, tab) && NoneDying(role0) && NoUser(role0, root)
      && FreedSub(m0, role0, m1, role1, root, 2, 0)
    ensures TornDown(m0, role0, m1, role1, root) && NoneDying(role1)
  {
    forall p: nat ensures TornAt(role0, role1, root, p) && DataAt(m0, role0, m1, role1, p) && NotDying(role1, p) {
      WholeTree(m0, role0, tab, root, p);
      assert FreedAt(m0, role0, m1, role1, root, 2, 0, p) && NoUserAt(role0, root, p) && NotDying(role0, p);
    }
    forall r: nat, w: nat ensures SameEntry(m0, m1, role1, r, w) {
      assert FreedAt(m0, role0, m1, role1, root, 2, 0, r);
      if IsRoot(role1, r) && w < MAXVPN {
        forall p: nat ensures KeepsTable(m0, role0, r, m1, p) {
          WholeTree(m0, role0, tab, root, r);
          WholeTree(m0, role0, tab, root, p);
          assert FreedAt(m0, role0, m1, role1, root, 2, 0, p);
        }
        LookupFrame(m0, role0, tab, r, w, m1);
      }
    }
  }

  /** Unmapping user memory, then freeing the tables. */
  lemma {:induction false} UnmapThenFree(m0: Mem, role0: Roles, tab0: Tab, m1: Mem, role1: Roles, tab1: Tab, m2: Mem,
      role2: Roles, root: nat, v: nat, n: nat)
    requires TreesOk(m0, role0, tab0) && TreesOk(m1, role1, tab1) && UnmappedTo(m0, role0, m1, role1, root, v, n, true)
      && Unmapped(m1, root, 0, MAXVPN)
    requires TornDown(m1, role1, m2, role2, root)
    ensures TornDown(m0, role0, m2, role2, root)
  {
    forall p: nat ensures TornAt(role0, role2, root, p) && DataAt(m0, role0, m2, role2, p) {
      assert GaveBackAt(role0, role1, root, v, n, Free, p) && TornAt(role1, role2, root, p) && UserOk(m1, role1, p)
        && UserOk(m0, role0, p);
      assert DataAt(m0, role0, m1, role1, p) && DataAt(m1, role1, m2, role2, p);
    }
    forall r: nat, w: nat ensures SameEntry(m0, m2, role2, r, w) {
      assert TornAt(role1, role2, root, r) && GaveBackAt(role0, role1, root, v, n, Free, r);
      assert RewrittenAt(m0, m1, role0, root, v, n, map[], r, w) && SameEntry(m1, m2, role2, r, w);
    }
  }

  lemma {:induction false} TornOwned(m0: Mem, role0: Roles, m1: Mem, role1: Roles, root: nat)
    requires Owned(m0, role0) && TornDown(m0, role0, m1, role1, root)
    ensures Owned(m1, role1)
  {
    forall r: nat, w: nat ensures OwnedBelow(m1, role1, r, w) {
      assert OwnedBelow(m0, role0, r, w) && TornAt(role0, role1, root, r) && SameEntry(m0, m1, role1, r, w);
      if w < MAXVPN && Lookup(m0, r, w).Some? {
        assert TornAt(role0, role1, root, Ppn(Lookup(m0, r, w).value));
      }
    }
  }

  /** What is left mapped after unmapping the first n pages. */
  lemma {:induction false} LeftOver(m0: Mem, role0: Roles, m1: Mem, role1: Roles, root: nat, n: nat)
    requires UnmappedTo(m0, role0, m1, role1, root, 0, n, true) && IsRoot(role0, root) && n <= MAXVPN
    ensures Unmapped(m1, root, 0, MAXVPN) <==> Unmapped(m0, root, n, MAXVPN - n)
  {
    var rest := MAXVPN - n;
    if Unmapped(m1, root, 0, MAXVPN) {
      forall w: nat ensures UnmappedAt(m0, root, n, rest, w) {
        assert UnmappedAt(m1, root, 0, MAXVPN, w) && RewrittenAt(m0, m1, role0, root, 0, n, map[], root, w);
      }
    }
    if Unmapped(m0, root, n, rest) {
      forall w: nat ensures UnmappedAt(m1, root, 0, MAXVPN, w) {
        assert UnmappedAt(m0, root, n, rest, w) && RewrittenAt(m0, m1, role0, root, 0, n, map[], root, w);
      }
    }
  }
}
