/** File names: the first DIRSIZ bytes of a string, as namecmp and strncpy treat
    them, and directories as finite maps keyed by such names. */
module Names {
  import opened Bytes

  const DIRSIZ: nat := 14
  const DESIZE: nat := 16

  type Str = seq<Byte>

  /** The string up to the first NUL, at most n bytes. */
  function Cut(s: Str, n: nat): (r: Str)
    ensures |r| <= n && |r| <= |s|
  {
    if n == 0 || s == [] || s[0] == 0 then [] else [s[0]] + Cut(s[1..], n - 1)
  }

  function Key(name: Str): (k: Str) { Cut(name, DIRSIZ) }

  /** The k-th byte of a C string: NUL from its end on. */
  function Char(s: Str, k: nat): (c: Byte) { if k < |s| then s[k] else 0 }

  lemma {:induction false} CutStep(s: Str, k: nat, n: nat)
    requires k <= |s| && n > 0
    ensures Cut(s[k..], n) == if Char(s, k) == 0 then [] else [Char(s, k)] + Cut(s[k + 1..], n - 1)
  {
    if k < |s| {
      assert s[k..][0] == s[k] && s[k..][1..] == s[k + 1..];
    }
  }

  /** Two strings from position k on, by their k-th bytes and what follows. */
  lemma {:induction false} SameCut(s: Str, t: Str, k: nat, n: nat)
    requires k <= |s| && k <= |t| && n > 0
    ensures Char(s, k) != Char(t, k) ==> Cut(s[k..], n) != Cut(t[k..], n)
    ensures Char(s, k) == Char(t, k) == 0 ==> Cut(s[k..], n) == Cut(t[k..], n)
    ensures Char(s, k) == Char(t, k) != 0 ==>
      k < |s| && k < |t| && (Cut(s[k..], n) == Cut(t[k..], n) <==> Cut(s[k + 1..], n - 1) == Cut(t[k + 1..], n - 1))
  {
    CutStep(s, k, n);
    CutStep(t, k, n);
    hide Cut;
    var c, x, y := Char(s, k), Cut(s[k..], n), Cut(t[k..], n);
    assert c != 0 ==> x[0] == c && x[1..] == Cut(s[k + 1..], n - 1);
    assert Char(t, k) != 0 ==> y[0] == Char(t, k) && y[1..] == Cut(t[k + 1..], n - 1);
  }

  /** namecmp(): strncmp over DIRSIZ bytes finds no difference exactly if the
      names are equal up to DIRSIZ bytes or the NUL. */
  method Namecmp(s: Str, t: Str) returns (eq: bool)
    ensures eq <==> Key(s) == Key(t)
  {
    var k: nat, n: nat := 0, DIRSIZ;
    assert s[0..] == s && t[0..] == t;
    hide Cut;
    while n > 0 && Char(s, k) != 0 && Char(s, k) == Char(t, k)
      invariant n + k == DIRSIZ && k <= |s| && k <= |t|
      invariant Key(s) == Key(t) <==> Cut(s[k..], n) == Cut(t[k..], n)
      decreases n
    {
      SameCut(s, t, k, n);
      n, k := n - 1, k + 1;
    }
    if n == 0 {
      return true;
    }
    SameCut(s, t, k, n);
    return Char(s, k) == Char(t, k);
  }

  /** What strncpy(field, name, n) leaves in the field. */
  function Padded(name: Str, n: nat): (r: Str)
    ensures |r| == n
  {
    Cut(name, n) + seq(n - |Cut(name, n)|, _ => 0)
  }

  /** The padded field has the same key. */
  lemma {:induction false} CutPadded(name: Str, n: nat)
    ensures Cut(Padded(name, n), n) == Cut(name, n)
    decreases n
  {
    if n > 0 && name != [] && name[0] != 0 {
      CutPadded(name[1..], n - 1);
      assert Padded(name, n) == [name[0]] + Padded(name[1..], n - 1);
      assert Padded(name, n)[1..] == Padded(name[1..], n - 1);
    } else if n > 0 {
      assert Padded(name, n)[0] == 0;
    }
  }

  /** strncpy() */
  method Strncpy(name: Str, n: nat) returns (field: Str)
    ensures field == Padded(name, n)
  {
    hide Cut;
    field := [];
    assert name[0..] == name;
    var k := 0;
    while k < n && Char(name, k) != 0
      invariant k <= n && k <= |name| && |field| == k
      invariant Cut(name, n) == field + Cut(name[k..], n - k)
    {
      CutStep(name, k, n - k);
      field := field + [Char(name, k)];
      k := k + 1;
    }
    if k < n {
      CutStep(name, k, n - k);
    }
    ghost var cut := field;
    assert cut == Cut(name, n);
    while k < n
      invariant |field| == k <= n && field == cut + seq(k - |cut|, _ => 0)
    {
      field := field + [0];
      k := k + 1;
    }
  }

  // ----- directory files -----

  /** de.inum of entry k */
  function Inum(f: Str, k: nat): (i: nat)
    requires DESIZE * k + DESIZE <= |f|
  {
    var lo: int, hi: int := f[DESIZE * k], f[DESIZE * k + 1];
    lo + 256 * hi
  }

  /** de.name of entry k */
  function Name(f: Str, k: nat): (s: Str)
    requires DESIZE * k + DESIZE <= |f|
  {
    f[DESIZE * k + 2..DESIZE * k + DESIZE]
  }

  /** The map that the first n entries stand for: the first entry for a name counts. */
  function Bindings(f: Str, n: nat): (m: map<Str, nat>)
    requires DESIZE * n <= |f|
  {
    if n == 0 then map[]
    else
      var m := Bindings(f, n - 1);
      var key := Key(Name(f, n - 1));
      if Inum(f, n - 1) == 0 || key in m then m else m[key := Inum(f, n - 1)]
  }

  function DirMap(f: Str): (m: map<Str, nat>) { Bindings(f, |f| / DESIZE) }

  predicate DistinctAt(f: Str, n: nat, j: nat, k: nat) {
    j < k < n && DESIZE * n <= |f| && Inum(f, j) != 0 && Inum(f, k) != 0 ==> Key(Name(f, j)) != Key(Name(f, k))
  }

  /** No two entries in use have the same name. */
  ghost predicate Distinct(f: Str, n: nat) {
    forall j: nat, k: nat {:trigger DistinctAt(f, n, j, k)} :: DistinctAt(f, n, j, k)
  }

  lemma {:induction false} BoundIff(f: Str, n: nat, k: nat)
    requires DESIZE * n <= |f| && k < n && Inum(f, k) != 0
    ensures Key(Name(f, k)) in Bindings(f, n)
  {
    if k < n - 1 {
      BoundIff(f, n - 1, k);
    }
  }

  predicate Binds(f: Str, n: nat, key: Str, k: nat) {
    DESIZE * n <= |f| && k < n && Inum(f, k) != 0 && Key(Name(f, k)) == key
  }

  /** Entry k is the first one in use with the name. */
  ghost predicate FirstBinds(f: Str, n: nat, key: Str, k: nat) {
    Binds(f, n, key, k) && forall j: nat :: j < k ==> !Binds(f, n, key, j)
  }

  lemma {:induction false} BoundFrom(f: Str, n: nat, key: Str) returns (k: nat)
    requires DESIZE * n <= |f| && key in Bindings(f, n)
    ensures FirstBinds(f, n, key, k) && Bindings(f, n)[key] == Inum(f, k)
  {
    if key in Bindings(f, n - 1) {
      k := BoundFrom(f, n - 1, key);
      forall j: nat | j < k ensures !Binds(f, n, key, j) {
        assert !Binds(f, n - 1, key, j);
      }
    } else {
      k := n - 1;
      forall j: nat | j < k ensures !Binds(f, n, key, j) {
        if Binds(f, n, key, j) { BoundIff(f, n - 1, j); }
      }
    }
  }

  /** What the map means: a name is bound to the inode number of the first entry in
      use that has it, and to nothing exactly if no entry in use has it. */
  lemma {:induction false} MapMeans(f: Str, key: Str, inum: nat)
    ensures key in DirMap(f) && DirMap(f)[key] == inum <==>
      exists k: nat :: FirstBinds(f, |f| / DESIZE, key, k) && Inum(f, k) == inum
    ensures key in DirMap(f) <==> exists k: nat :: Binds(f, |f| / DESIZE, key, k)
  {
    var n := |f| / DESIZE;
    if key in DirMap(f) {
      var k := BoundFrom(f, n, key);
      forall j: nat | FirstBinds(f, n, key, j) ensures j == k {
        assert !(j < k) && !(k < j);
      }
    }
    forall k: nat | Binds(f, n, key, k) ensures key in DirMap(f) {
      BoundIff(f, n, k);
    }
  }

  predicate SameEntryAt(f: Str, g: Str, k: nat) {
    DESIZE * k + DESIZE <= |f| && DESIZE * k + DESIZE <= |g| ==> Inum(g, k) == Inum(f, k) && Name(g, k) == Name(f, k)
  }

  /** g is f with entry p, free or just beyond the end of f, now binding key. */
  ghost predicate Linked(f: Str, g: Str, p: nat, key: Str, inum: nat) {
    && |f| % DESIZE == 0 && DESIZE * p <= |f| && |g| == (if DESIZE * p == |f| then |f| + DESIZE else |f|)
    && (DESIZE * p < |f| ==> Inum(f, p) == 0)
    && Inum(g, p) == inum && Key(Name(g, p)) == key
    && forall k: nat {:trigger SameEntryAt(f, g, k)} :: k != p ==> SameEntryAt(f, g, k)
  }

  /** Adding an entry for a name that is not bound adds exactly that binding. */
  lemma {:induction false} LinkedBindings(f: Str, g: Str, p: nat, key: Str, inum: nat, n: nat)
    requires Linked(f, g, p, key, inum) && inum != 0 && key !in DirMap(f) && DESIZE * n <= |g|
    ensures if n <= p then DESIZE * n <= |f| && Bindings(g, n) == Bindings(f, n)
      else DESIZE * n <= |f| ==> Bindings(g, n) == Bindings(f, n)[key := inum]
    ensures p < n && DESIZE * n > |f| ==> Bindings(g, n) == DirMap(f)[key := inum]
  {
    hide Key, Name, Inum;
    if n > 0 {
      LinkedBindings(f, g, p, key, inum, n - 1);
      assert n - 1 != p ==> SameEntryAt(f, g, n - 1);
      if DESIZE * n <= |f| {
        NotBound(f, n, key);
      } else {
        assert n - 1 == p == |f| / DESIZE;
      }
    }
  }

  lemma {:induction false} NotBound(f: Str, n: nat, key: Str)
    requires DESIZE * n <= |f| && key !in DirMap(f)
    ensures key !in Bindings(f, n) && (n > 0 && Inum(f, n - 1) != 0 ==> Key(Name(f, n - 1)) != key)
    decreases |f| / DESIZE - n
  {
    if n > 0 && Inum(f, n - 1) != 0 {
      BoundIff(f, |f| / DESIZE, n - 1);
    }
    if n < |f| / DESIZE {
      NotBound(f, n + 1, key);
    }
  }

  lemma {:induction false} UnlinkedBindings(f: Str, g: Str, p: nat, key: Str, n: nat)
    requires Linked(f, g, p, key, 0) && DESIZE * n <= |g|
    ensures if DESIZE * n <= |f| then Bindings(g, n) == Bindings(f, n) else Bindings(g, n) == DirMap(f)
  {
    hide Key, Name, Inum;
    if n > 0 {
      UnlinkedBindings(f, g, p, key, n - 1);
      assert n - 1 != p ==> SameEntryAt(f, g, n - 1);
      if DESIZE * n > |f| {
        assert n - 1 == p == |f| / DESIZE;
      }
    }
  }

  /** An entry with inode number 0 binds nothing. */
  lemma {:induction false} UnlinkedMap(f: Str, g: Str, p: nat, key: Str)
    requires Linked(f, g, p, key, 0)
    ensures DirMap(g) == DirMap(f)
  {
    UnlinkedBindings(f, g, p, key, |g| / DESIZE);
    assert DESIZE * (|g| / DESIZE) <= |f| ==> |g| / DESIZE == |f| / DESIZE;
  }

  /** dirlink refines adding a binding to a map, and names stay unique. */
  lemma {:induction false} LinkedMap(f: Str, g: Str, p: nat, key: Str, inum: nat)
    requires Linked(f, g, p, key, inum) && inum != 0 && key !in DirMap(f)
    ensures DirMap(g) == DirMap(f)[key := inum]
    ensures Distinct(f, |f| / DESIZE) ==> Distinct(g, |g| / DESIZE)
  {
    LinkedBindings(f, g, p, key, inum, |g| / DESIZE);
    var n, n' := |f| / DESIZE, |g| / DESIZE;
    if Distinct(f, n) {
      forall j: nat, k: nat ensures DistinctAt(g, n', j, k) {
        assert DistinctAt(f, n, j, k) && (j != p ==> SameEntryAt(f, g, j)) && (k != p ==> SameEntryAt(f, g, k));
        if j == p && k < n && Inum(f, k) != 0 { BoundIff(f, n, k); }
        if k == p && j < n && Inum(f, j) != 0 { BoundIff(f, n, j); }
      }
    }
  }
}
