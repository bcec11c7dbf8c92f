/** Path names: skipelem takes the components off a path one by one, and namex
    walks the directories along them. */
module Path {
  import opened Bytes
  import opened FsFormat
  import opened FsDisk
  import opened Names
  import opened Dir
  import Fs

  const SLASH: Byte := 47
  const ROOTINO: nat := 1

  // ----- components -----

  /** Length of the run of non-slashes at the front. */
  function ElemLen(p: Str): (n: nat)
    ensures n <= |p| && (n < |p| ==> p[n] == SLASH) && SLASH !in p[..n]
  {
    if p == [] || p[0] == SLASH then 0
    else
      var n := ElemLen(p[1..]);
      assert p[..n + 1] == [p[0]] + p[1..][..n];
      n + 1
  }

  /** The non-empty parts between slashes. */
  function Comps(p: Str): (c: seq<Str>)
    decreases |p|
  {
    if p == [] then []
    else if p[0] == SLASH then Comps(p[1..])
    else [p[..ElemLen(p)]] + Comps(p[ElemLen(p)..])
  }

  predicate NoneSlash(p: Str, a: nat, b: nat) {
    a <= b <= |p| && forall j :: a <= j < b ==> p[j] != SLASH
  }

  /** A longest run of non-slashes. */
  predicate IsElem(p: Str, w: (nat, nat)) {
    && w.0 < w.1 && NoneSlash(p, w.0, w.1)
    && (w.0 > 0 ==> p[w.0 - 1] == SLASH) && (w.1 < |p| ==> p[w.1] == SLASH)
  }

  /** The places of the components from position i on. */
  function Places(p: Str, i: nat): (r: seq<(nat, nat)>)
    requires i <= |p|
    decreases |p| - i
  {
    if i == |p| then []
    else if p[i] == SLASH then Places(p, i + 1)
    else [(i, i + ElemLen(p[i..]))] + Places(p, i + ElemLen(p[i..]))
  }

  /** i is not inside a run of non-slashes. */
  predicate AtBreak(p: Str, i: nat) { i == 0 || i >= |p| || p[i - 1] == SLASH || p[i] == SLASH }

  lemma {:induction false} ElemEnd(p: Str, i: nat)
    requires i < |p| && p[i] != SLASH && AtBreak(p, i)
    ensures var e := i + ElemLen(p[i..]); i < e && IsElem(p, (i, e)) && AtBreak(p, e)
  {
    var n := ElemLen(p[i..]);
    forall j | i <= j < i + n ensures p[j] != SLASH {
      assert p[j] == p[i..][..n][j - i];
    }
    assert n < |p[i..]| ==> p[i..][n] == p[i + n];
  }

  lemma {:induction false} PlacesStep(p: Str, i: nat, e: nat)
    requires i < |p| && e == i + ElemLen(p[i..])
    ensures p[i] == SLASH ==> Places(p, i) == Places(p, i + 1) && Comps(p[i..]) == Comps(p[i + 1..])
    ensures p[i] != SLASH ==> Places(p, i) == [(i, e)] + Places(p, e) && Comps(p[i..]) == [p[i..e]] + Comps(p[e..])
  {
    SliceSlice(p, i, e);
    assert p[i..][1..] == p[i + 1..];
  }

  predicate PlaceOk(p: Str, w: (nat, nat), c: Str) { IsElem(p, w) && p[w.0..w.1] == c }

  /** Component k lies at place k, after the places before. */
  lemma {:induction false} PlaceOf(p: Str, i: nat, k: nat)
    requires i <= |p| && AtBreak(p, i)
    ensures |Places(p, i)| == |Comps(p[i..])|
    ensures k < |Places(p, i)| ==>
      && PlaceOk(p, Places(p, i)[k], Comps(p[i..])[k])
      && (if k == 0 then i else Places(p, i)[k - 1].1) <= Places(p, i)[k].0
    decreases |p| - i
  {
    if i < |p| {
      var e := i + ElemLen(p[i..]);
      PlacesStep(p, i, e);
      if p[i] == SLASH {
        hide Places, Comps, IsElem;
        PlaceOf(p, i + 1, k);
      } else {
        ElemEnd(p, i);
        hide Places, Comps, IsElem, AtBreak, ElemLen, PlaceOk;
        PlaceOf(p, e, if k == 0 then 0 else k - 1);
        if k <= |Places(p, e)| { PlaceCons(p, i, e, Places(p, e), Comps(p[e..]), k); }
      }
    }
  }

  lemma {:induction false} PlaceCons(p: Str, i: nat, e: nat, places: seq<(nat, nat)>, comps: seq<Str>, k: nat)
    requires i < e <= |p| && IsElem(p, (i, e)) && |places| == |comps| && k <= |places|
    requires k > 0 ==>
      PlaceOk(p, places[k - 1], comps[k - 1]) && (if k == 1 then e else places[k - 2].1) <= places[k - 1].0
    ensures var ps, cs := [(i, e)] + places, [p[i..e]] + comps;
      PlaceOk(p, ps[k], cs[k]) && (if k == 0 then i else ps[k - 1].1) <= ps[k].0
  {
    hide IsElem;
  }

  lemma {:induction false} PlacesAll(p: Str, i: nat, w: (nat, nat))
    requires i <= w.0 && AtBreak(p, i) && IsElem(p, w)
    ensures w in Places(p, i)
    decreases |p| - i
  {
    if p[i] == SLASH {
      PlacesAll(p, i + 1, w);
    } else {
      ElemEnd(p, i);
      if i < w.0 { PlacesAll(p, i + ElemLen(p[i..]), w); }
    }
  }

  /** The components are exactly the longest runs of non-slashes, each once, in order. */
  lemma {:induction false} CompsExact(p: Str)
    ensures forall w :: w in Places(p, 0) <==> IsElem(p, w)
    ensures |Comps(p)| == |Places(p, 0)|
    ensures forall k: nat :: k < |Comps(p)| ==> PlaceOk(p, Places(p, 0)[k], Comps(p)[k])
    ensures forall k: nat :: 0 < k < |Comps(p)| ==> Places(p, 0)[k - 1].1 <= Places(p, 0)[k].0
  {
    assert p[0..] == p;
    PlaceOf(p, 0, 0);
    forall k: nat | k < |Comps(p)|
      ensures PlaceOk(p, Places(p, 0)[k], Comps(p)[k]) && (k > 0 ==> Places(p, 0)[k - 1].1 <= Places(p, 0)[k].0)
    {
      PlaceOf(p, 0, k);
    }
    forall w | IsElem(p, w) ensures w in Places(p, 0) {
      PlacesAll(p, 0, w);
    }
  }

  lemma {:induction false} SkipSlash(p: Str, k: nat)
    requires k <= |p| && forall j :: 0 <= j < k ==> p[j] == SLASH
    ensures Comps(p[k..]) == Comps(p)
  {
    if k > 0 {
      assert p[1..][k - 1..] == p[k..];
      SkipSlash(p[1..], k - 1);
    } else {
      assert p[0..] == p;
    }
  }

  lemma {:induction false} ElemIs(p: Str, n: nat)
    requires n <= |p| && (forall j :: 0 <= j < n ==> p[j] != SLASH) && (n < |p| ==> p[n] == SLASH)
    ensures ElemLen(p) == n && (n > 0 ==> Comps(p) == [p[..n]] + Comps(p[n..]))
  {
    if n > 0 { ElemIs(p[1..], n - 1); }
  }

  predicate AllSlash(p: Str, a: nat, b: nat) {
    a <= b <= |p| && forall j :: a <= j < b ==> p[j] == SLASH
  }

  lemma {:induction false} SliceSlice(p: Str, a: nat, b: nat)
    requires a <= b <= |p|
    ensures p[a..][..b - a] == p[a..b] && p[a..][b - a..] == p[b..]
  {
  }

  /** A run of non-slashes up to e that begins at s. */
  lemma {:induction false} ElemAt(path: Str, s: nat, e: nat)
    requires NoneSlash(path, s, e) && s < e && (e < |path| ==> path[e] == SLASH)
    ensures Comps(path[s..]) == [path[s..e]] + Comps(path[e..])
  {
    var p, n := path[s..], e - s;
    ElemIs(p, n);
    SliceSlice(path, s, e);
  }

  lemma {:induction false} SlashesAt(path: Str, e: nat, t: nat)
    requires AllSlash(path, e, t)
    ensures Comps(path[e..]) == Comps(path[t..])
  {
    SliceSlice(path, e, t);
    SkipSlash(path[e..], t - e);
  }

  /** Slashes up to s, an element up to e, slashes up to t. */
  lemma {:induction false} OneElem(path: Str, s: nat, e: nat, t: nat)
    requires AllSlash(path, 0, s) && NoneSlash(path, s, e) && AllSlash(path, e, t) && s < e
    requires (e < |path| ==> path[e] == SLASH) && (t < |path| ==> path[t] != SLASH)
    ensures Comps(path) == [path[s..e]] + Comps(path[t..])
  {
    hide Comps;
    SkipSlash(path, s);
    ElemAt(path, s, e);
    SlashesAt(path, e, t);
  }

  lemma {:induction false} NoElem(path: Str)
    requires AllSlash(path, 0, |path|)
    ensures Comps(path) == []
  {
    SkipSlash(path, |path|);
  }

  lemma {:induction false} RestEmpty(p: Str)
    requires p != [] ==> p[0] != SLASH
    ensures p == [] <==> Comps(p) == []
  {
  }

  /** skipelem(): None exactly if no component is left; otherwise the first
      component, cut to DIRSIZ bytes, and a rest with the other components that
      does not begin with a slash. */
  method Skipelem(path: Str) returns (r: Option<(Str, Str)>)
    ensures r.None? <==> Comps(path) == []
    ensures r.Some? ==> var (name, rest) := r.value;
      && name == Key0(Comps(path)[0]) && Comps(rest) == Comps(path)[1..]
      && (rest == [] <==> |Comps(path)| == 1) && (rest != [] ==> rest[0] != SLASH)
  {
    var i := 0;
    while i < |path| && path[i] == SLASH
      invariant AllSlash(path, 0, i)
    {
      i := i + 1;
    }
    if i == |path| {
      NoElem(path);
      return None;
    }
    var s := i;
    while i < |path| && path[i] != SLASH
      invariant NoneSlash(path, s, i)
    {
      i := i + 1;
    }
    var e := i;
    var name := if e - s >= DIRSIZ then path[s..s + DIRSIZ] else path[s..e];
    while i < |path| && path[i] == SLASH
      invariant AllSlash(path, e, i)
    {
      i := i + 1;
    }
    OneElem(path, s, e, i);
    RestEmpty(path[i..]);
    assert path[s..e][..if e - s >= DIRSIZ then DIRSIZ else e - s] == name;
    return Some((name, path[i..]));
  }

  /** At most DIRSIZ bytes of a component. */
  function Key0(c: Str): (k: Str) { if |c| >= DIRSIZ then c[..DIRSIZ] else c }

  // ----- walking the directories -----

  predicate BoundOk(ino: Inodes, m: map<Str, nat>, key: Str) {
    key in m ==> m[key] in ino && ino[m[key]].typ != 0
  }

  /** Directories hold whole entries, and what they bind is allocated. */
  ghost predicate DirAt(blocks: Blocks, ino: Inodes, d: nat) {
    d in ino && ino[d].typ == T_DIR ==>
      IsDir(ino, d) && forall key: Str :: BoundOk(ino, DirMap(File(blocks, ino[d])), key)
  }

  ghost predicate DirsOk(blocks: Blocks, ino: Inodes) {
    forall d: nat {:trigger DirAt(blocks, ino, d)} :: DirAt(blocks, ino, d)
  }

  /** One step: what directory i binds to a name. */
  function Step(blocks: Blocks, ino: Inodes, i: nat, key: Str): (r: Option<nat>) {
    if !IsDir(ino, i) || key !in DirMap(File(blocks, ino[i])) then None else Some(DirMap(File(blocks, ino[i]))[key])
  }

  /** Where a list of components leads from inode i. */
  function Resolve(blocks: Blocks, ino: Inodes, i: nat, comps: seq<Str>): (r: Option<nat>)
    decreases |comps|
  {
    if comps == [] then Some(i)
    else
      var n := Step(blocks, ino, i, Key(comps[0]));
      if n.None? then None else Resolve(blocks, ino, n.value, comps[1..])
  }

  /** The directory that should hold the last component. */
  function ResolveParent(blocks: Blocks, ino: Inodes, i: nat, comps: seq<Str>): (r: Option<nat>)
    decreases |comps|
  {
    if comps == [] || !IsDir(ino, i) then None
    else if |comps| == 1 then Some(i)
    else
      var n := Step(blocks, ino, i, Key(comps[0]));
      if n.None? then None else ResolveParent(blocks, ino, n.value, comps[1..])
  }

  /** The parent is where all components but the last lead, if that is a directory,
      and the whole path leads to what the parent binds the last component to. */
  lemma {:induction false} ParentIs(blocks: Blocks, ino: Inodes, i: nat, comps: seq<Str>)
    requires comps != []
    ensures var d := Resolve(blocks, ino, i, comps[..|comps| - 1]);
      && ResolveParent(blocks, ino, i, comps) == (if d.Some? && IsDir(ino, d.value) then d else None)
      && Resolve(blocks, ino, i, comps) == if d.None? then None else Step(blocks, ino, d.value, Key(comps[|comps| - 1]))
    decreases |comps|
  {
    hide IsDir, DirMap, File;
    var init := comps[..|comps| - 1];
    if |comps| > 1 {
      assert init[0] == comps[0] && init[1..] == comps[1..][..|comps| - 2];
      var n := Step(blocks, ino, i, Key(comps[0]));
      if n.Some? { ParentIs(blocks, ino, n.value, comps[1..]); }
    } else {
      assert comps[1..] == [];
      var n := Step(blocks, ino, i, Key(comps[0]));
      assert n.Some? ==> Resolve(blocks, ino, n.value, []) == n;
    }
  }

  lemma {:induction false} KeyOfKey0(c: Str, n: nat)
    ensures Cut(if |c| >= n then c[..n] else c, n) == Cut(c, n)
  {
    if n > 0 && c != [] && c[0] != 0 {
      KeyOfKey0(c[1..], n - 1);
      if |c| >= n { assert c[..n][1..] == c[1..][..n - 1]; }
    }
  }

  /** namex(): with nameiparent, the directory that holds the last component and
      that component; otherwise the inode the path names. */
  method Namex(fs: Fs.Fs, path: Str, cwd: nat, nameiparent: bool) returns (r: Option<nat>, name: Str)
    requires fs.Valid() && DirsOk(fs.blocks, fs.ino)
    requires ROOTINO in fs.ino && fs.ino[ROOTINO].typ != 0 && cwd in fs.ino && fs.ino[cwd].typ != 0
    modifies fs
    ensures fs.Valid() && fs.blocks == old(fs.blocks) && fs.ino == old(fs.ino) && fs.owner == old(fs.owner)
      && fs.dirty == old(fs.dirty)
    ensures var start := if path != [] && path[0] == SLASH then ROOTINO else cwd;
      r == Goal(fs.blocks, fs.ino, start, Comps(path), nameiparent)
    ensures nameiparent && r.Some? ==> Comps(path) != [] && name == Key0(Comps(path)[|Comps(path)| - 1])
  {
    hide FsOk, NoTaken, Applied, Targets, Stored, File, DirMap;
    var ip := if path != [] && path[0] == SLASH then ROOTINO else cwd;
    ghost var b0, i0, start := fs.blocks, fs.ino, ip;
    name := [];
    var rest := path;
    ghost var left := Comps(path);
    while true
      invariant fs.Valid() && fs.blocks == b0 && fs.ino == i0 && fs.owner == old(fs.owner) && fs.dirty == old(fs.dirty)
      invariant ip in i0 && i0[ip].typ != 0
      invariant left == Comps(rest)
        && Goal(b0, i0, start, Comps(path), nameiparent) == Goal(b0, i0, ip, left, nameiparent)
      invariant left != [] ==> Comps(path) != [] && left[|left| - 1] == Comps(path)[|Comps(path)| - 1]
      decreases |left|
    {
      var next := Skipelem(rest);
      if next.None? {
        return if nameiparent then None else Some(ip), name;
      }
      name, rest := next.value.0, next.value.1;
      assert DirAt(b0, i0, ip);
      if fs.ino[ip].typ != T_DIR {
        return None, name;
      }
      if nameiparent && rest == [] {
        return Some(ip), name;
      }
      KeyOfKey0(left[0], DIRSIZ);
      var n := Dirlookup(fs, ip, name, File(b0, i0[ip]));
      GoalStep(b0, i0, ip, left, nameiparent);
      if n.None? {
        return None, name;
      }
      assert BoundOk(i0, DirMap(File(b0, i0[ip])), Key(name));
      ip, left := n.value, left[1..];
    }
  }

  function Goal(blocks: Blocks, ino: Inodes, i: nat, comps: seq<Str>, nameiparent: bool): (r: Option<nat>) {
    if nameiparent then ResolveParent(blocks, ino, i, comps) else Resolve(blocks, ino, i, comps)
  }

  lemma {:induction false} GoalStep(blocks: Blocks, ino: Inodes, i: nat, comps: seq<Str>, nameiparent: bool)
    requires comps != [] && IsDir(ino, i) && (nameiparent ==> |comps| > 1)
    ensures var n := Step(blocks, ino, i, Key(comps[0]));
      Goal(blocks, ino, i, comps, nameiparent) == if n.None? then None
        else Goal(blocks, ino, n.value, comps[1..], nameiparent)
  {
  }
}
