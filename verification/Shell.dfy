/** user/sh.c: the recursive-descent parser of command lines, whose trees point into
    the line, and nulterminate, which cuts the line up in place. Positions are
    indices into the line; the NUL is at its length. */
module Shell {
  import opened Bytes
  import opened ShellGrammar

  // ----- tokens -----

  predicate White(c: char) { c == ' ' || c == '\t' || c == '\r' || c == '\n' || c == (11 as char) }
  predicate Symbol(c: char) { c == '<' || c == '|' || c == '>' || c == '&' || c == ';' || c == '(' || c == ')' }
  predicate Plain(c: char) { !White(c) && !Symbol(c) }

  function At(s: string, i: nat): (c: char) { if i < |s| then s[i] else '\0' }

  function Skip(s: string, i: nat): (j: nat)
    requires i <= |s|
    ensures i <= j <= |s| && (j < |s| ==> !White(s[j]))
    decreases |s| - i
  {
    if i < |s| && White(s[i]) then Skip(s, i + 1) else i
  }

  function WordEnd(s: string, i: nat): (j: nat)
    requires i <= |s|
    ensures i <= j <= |s| && (j < |s| ==> !Plain(s[j])) && forall k :: i <= k < j ==> Plain(s[k])
    decreases |s| - i
  {
    if i < |s| && Plain(s[i]) then WordEnd(s, i + 1) else i
  }

  function Kind(s: string, q: nat): (k: char)
    requires q <= |s|
  {
    if q == |s| then '\0' else if !Symbol(s[q]) then 'a' else if s[q] == '>' && At(s, q + 1) == '>' then '+' else s[q]
  }

  /** What gettoken returns: kind NUL at the end. */
  function TokenAt(s: string, i: nat): (t: Token)
    requires i <= |s|
    ensures i <= t.q <= t.eq <= t.next <= |s| && (t.kind == '\0' <==> t.q == |s|) && (t.kind != '\0' ==> t.q < t.eq)
  {
    var q := Skip(s, i);
    var kind := Kind(s, q);
    var eq := if q == |s| then q else if kind == 'a' then WordEnd(s, q) else if kind == '+' then q + 2 else q + 1;
    Token(kind, q, eq, Skip(s, eq))
  }

  /** The tokens of the line from i on. */
  function Toks(s: string, i: nat): (ts: Tokens)
    requires i <= |s|
    ensures TokenAt(s, i).kind == Head(ts)
    ensures forall k :: 0 <= k < |ts| ==> ts[k].kind != '\0'
    decreases |s| - i
  {
    var t := TokenAt(s, i);
    if t.kind == '\0' then [] else [t] + Toks(s, t.next)
  }

  lemma {:induction false} SkipToks(s: string, i: nat)
    requires i <= |s|
    ensures var j := Skip(s, i); Toks(s, j) == Toks(s, i) && TokenAt(s, j) == TokenAt(s, i)
  {
    var j := Skip(s, i);
    assert Skip(s, j) == j;
    assert TokenAt(s, j) == TokenAt(s, i);
    hide TokenAt;
  }

  lemma {:induction false} NextToks(s: string, i: nat)
    requires i <= |s| && Toks(s, i) != []
    ensures var t := TokenAt(s, i); t == Toks(s, i)[0] && Toks(s, t.next) == Toks(s, i)[1..] && t.next > i
  {
  }

  method SkipWhite(s: string, i: nat) returns (j: nat)
    requires i <= |s|
    ensures j == Skip(s, i)
  {
    j := i;
    while j < |s| && White(s[j])
      invariant i <= j <= |s| && Skip(s, i) == Skip(s, j)
    {
      j := j + 1;
    }
  }

  /** gettoken() */
  method Gettoken(s: string, i: nat) returns (t: Token)
    requires i <= |s| && '\0' !in s
    ensures t == TokenAt(s, i)
  {
    var q := SkipWhite(s, i);
    var e, kind := q, At(s, q);
    if q == |s| {
    } else if s[q] == '|' || s[q] == '(' || s[q] == ')' || s[q] == ';' || s[q] == '&' || s[q] == '<' {
      e := q + 1;
    } else if s[q] == '>' {
      e := q + 1;
      if At(s, e) == '>' {
        kind := '+';
        e := e + 1;
      }
    } else {
      kind := 'a';
      while e < |s| && !White(s[e]) && !Symbol(s[e])
        invariant q <= e <= |s| && WordEnd(s, q) == WordEnd(s, e)
      {
        e := e + 1;
      }
    }
    var next := SkipWhite(s, e);
    return Token(kind, q, e, next);
  }

  /** The first character of the next token is one of toks. */
  predicate Starts(s: string, i: nat, toks: string)
    requires i <= |s|
  {
    Skip(s, i) < |s| && s[Skip(s, i)] in toks
  }

  /** peek(): skip to the next token and see whether it starts with one of toks. */
  method Peek(s: string, i: nat, toks: string) returns (b: bool, j: nat)
    requires i <= |s| && '\0' !in s
    ensures i <= j <= |s| && Toks(s, j) == Toks(s, i) && TokenAt(s, j) == TokenAt(s, i) && j == Skip(s, i)
    ensures b <==> Starts(s, i, toks)
  {
    j := SkipWhite(s, i);
    b := j < |s| && s[j] in toks;
    SkipToks(s, i);
  }

  /** What peek sees in terms of tokens. */
  lemma {:induction false} StartsKind(s: string, i: nat)
    requires i <= |s|
    ensures var k := Head(Toks(s, i));
      && (Starts(s, i, "(") <==> k == '(') && (Starts(s, i, ")") <==> k == ')') && (Starts(s, i, "|") <==> k == '|')
      && (Starts(s, i, "&") <==> k == '&') && (Starts(s, i, ";") <==> k == ';')
      && (Starts(s, i, "<>") <==> IsRedir(k)) && (Starts(s, i, "|)&;") <==> EndsExec(k))
  {
  }

  // ----- the parser -----

  /** The parser at i has the result r of parsing the tokens from i on: it panics
      (None) or is at a position from which the remaining tokens are left. */
  ghost predicate Agrees<T>(s: string, i: nat, got: Option<(T, nat)>, r: Option<Parse<T>>) {
    && (got.Some? <==> r.Some?)
    && (got.Some? ==> i <= got.value.1 <= |s| && got.value.0 == r.value.value && Toks(s, got.value.1) == r.value.rest)
  }

  /** parseredirs(), with the files found so far. */
  method Parseredirs(s: string, i: nat, files0: seq<File>) returns (r: Option<(seq<File>, nat)>)
    requires i <= |s| && '\0' !in s
    ensures Agrees(s, i, r, Redirs(Toks(s, i), files0))
  {
    var files, j := files0, i;
    while true
      invariant i <= j <= |s| && Redirs(Toks(s, i), files0) == Redirs(Toks(s, j), files)
      decreases |s| - j
    {
      StartsKind(s, j);
      var more;
      more, j := Peek(s, j, "<>");
      if !more {
        return Some((files, j));
      }
      NextToks(s, j);
      var tok := Gettoken(s, j);
      var file := Gettoken(s, tok.next);
      if file.kind != 'a' {
        return None;
      }
      NextToks(s, tok.next);
      assert Toks(s, j)[2..] == Toks(s, file.next);
      var f := File(file.q, file.eq,
          if tok.kind == '<' then Read else if tok.kind == '>' then CreateTruncate else Create,
              if tok.kind == '<' then 0 else 1);
      files, j := files + [f], file.next;
    }
  }

  /** Redirections first, then the rest of the loop. */
  lemma {:induction false} ItemsRedirs(ts: Tokens, args: seq<(nat, nat)>, files: seq<File>)
    ensures var r := Redirs(ts, files);
      Items(ts, args, files) == if r.None? then None else Items(r.value.rest, args, r.value.value)
    decreases |ts|
  {
    if IsRedir(Head(ts)) && Head(ts[1..]) == 'a' {
      ItemsRedirs(ts[2..], args, files + [FileOf(ts[0].kind, ts[1])]);
    }
  }

  /** parseexec(): None where it or a callee panics. */
  method Parseexec(s: string, i: nat) returns (r: Option<(Cmd, nat)>)
    requires i <= |s| && '\0' !in s
    ensures Agrees(s, i, r, ExecParse(Toks(s, i)))
    decreases |s| - i, 1
  {
    StartsKind(s, i);
    var block, j := Peek(s, i, "(");
    if block {
      r := Parseblock(s, j);
      return;
    }
    var args: seq<(nat, nat)>, files: seq<File> := [], [];
    ItemsRedirs(Toks(s, j), args, files);
    var more := Parseredirs(s, j, files);
    if more.None? {
      return None;
    }
    files, j := more.value.0, more.value.1;
    while true
      invariant i <= j <= |s| && Items(Toks(s, i), [], []) == Items(Toks(s, j), args, files)
        && !IsRedir(Head(Toks(s, j)))
      decreases |s| - j
    {
      StartsKind(s, j);
      var stop;
      stop, j := Peek(s, j, "|)&;");
      if stop {
        break;
      }
      var t := Gettoken(s, j);
      if t.kind == '\0' {
        break;
      }
      if t.kind != 'a' {
        return None;
      }
      NextToks(s, j);
      if |args| + 1 >= MAXARGS {
        return None;
      }
      args := args + [(t.q, t.eq)];
      ItemsRedirs(Toks(s, t.next), args, files);
      more := Parseredirs(s, t.next, files);
      if more.None? {
        return None;
      }
      files, j := more.value.0, more.value.1;
    }
    return Some((Wrap(Exec(args), files), j));
  }

  /** parseblock() */
  method Parseblock(s: string, i: nat) returns (r: Option<(Cmd, nat)>)
    requires i <= |s| && '\0' !in s
    ensures Agrees(s, i, r, BlockParse(Toks(s, i)))
    decreases |s| - i, 0
  {
    StartsKind(s, i);
    var open, j := Peek(s, i, "(");
    if !open {
      return None;
    }
    NextToks(s, j);
    var t := Gettoken(s, j);
    var line := Parseline(s, t.next);
    if line.None? {
      return None;
    }
    StartsKind(s, line.value.1);
    var close, k := Peek(s, line.value.1, ")");
    if !close {
      return None;
    }
    NextToks(s, k);
    t := Gettoken(s, k);
    var files := Parseredirs(s, t.next, []);
    if files.None? {
      return None;
    }
    return Some((Wrap(line.value.0, files.value.0), files.value.1));
  }

  /** parsepipe() */
  method Parsepipe(s: string, i: nat) returns (r: Option<(Cmd, nat)>)
    requires i <= |s| && '\0' !in s
    ensures Agrees(s, i, r, PipeParse(Toks(s, i)))
    decreases |s| - i, 2
  {
    r := Parseexec(s, i);
    if r.None? {
      return;
    }
    var c := r.value.0;
    StartsKind(s, r.value.1);
    var more, j := Peek(s, r.value.1, "|");
    if more {
      NextToks(s, j);
      var t := Gettoken(s, j);
      var right := Parsepipe(s, t.next);
      if right.None? {
        return None;
      }
      return Some((Pipe(c, right.value.0), right.value.1));
    }
    return Some((c, j));
  }

  /** parseline() */
  method Parseline(s: string, i: nat) returns (r: Option<(Cmd, nat)>)
    requires i <= |s| && '\0' !in s
    ensures Agrees(s, i, r, LineParse(Toks(s, i)))
    decreases |s| - i, 3
  {
    r := Parsepipe(s, i);
    if r.None? {
      return;
    }
    var c, j := r.value.0, r.value.1;
    while true
      invariant i <= j <= |s| && Amps(PipeParse(Toks(s, i)).value) == Amps(Parse(c, Toks(s, j)))
      decreases |s| - j
    {
      StartsKind(s, j);
      var back;
      back, j := Peek(s, j, "&");
      if !back {
        break;
      }
      NextToks(s, j);
      var t := Gettoken(s, j);
      c, j := Back(c), t.next;
    }
    var more, k := Peek(s, j, ";");
    if more {
      NextToks(s, k);
      var t := Gettoken(s, k);
      var right := Parseline(s, t.next);
      if right.None? {
        return None;
      }
      return Some((List(c, right.value.0), right.value.1));
    }
    return Some((c, k));
  }

  // ----- words of a line and of a tree -----

  /** The words among tokens. */
  function Words(ts: Tokens): (w: set<(nat, nat)>) { set t | t in ts && t.kind == 'a' :: (t.q, t.eq) }

  function ArgWords(args: seq<(nat, nat)>): (w: set<(nat, nat)>) { set x | x in args }
  function FileWords(files: seq<File>): (w: set<(nat, nat)>) { set f | f in files :: (f.q, f.eq) }

  function TreeWords(c: Cmd): (w: set<(nat, nat)>) {
    match c
    case Exec(args) => ArgWords(args)
    case Redir(d, f) => TreeWords(d) + {(f.q, f.eq)}
    case Pipe(l, r) => TreeWords(l) + TreeWords(r)
    case List(l, r) => TreeWords(l) + TreeWords(r)
    case Back(d) => TreeWords(d)
  }

  lemma {:induction false} WordsCat(a: Tokens, b: Tokens)
    ensures Words(a + b) == Words(a) + Words(b)
  {
    forall w ensures w in Words(a + b) <==> w in Words(a) + Words(b) {
      if w in Words(a) {
        var t :| t in a && t.kind == 'a' && w == (t.q, t.eq);
        assert t in a + b;
      }
      if w in Words(b) {
        var t :| t in b && t.kind == 'a' && w == (t.q, t.eq);
        assert t in a + b;
      }
    }
  }

  lemma {:induction false} WordsOne(t: Token)
    ensures Words([t]) == if t.kind == 'a' then {(t.q, t.eq)} else {}
  {
    assert t in [t];
  }

  /** A token that is no word between two parts adds no word. */
  lemma {:induction false} WordsAround(ts: Tokens, k: nat)
    requires k < |ts| && ts[k].kind != 'a'
    ensures Words(ts) == Words(ts[..k]) + Words(ts[k + 1..])
  {
    WordsCat(ts[..k], [ts[k]]);
    WordsCat(ts[..k] + [ts[k]], ts[k + 1..]);
    WordsOne(ts[k]);
    assert ts == ts[..k] + [ts[k]] + ts[k + 1..];
  }

  lemma {:induction false} WordsFile(ts: Tokens, f: File)
    requires EndsInFile(ts, f)
    ensures Words(ts) == Words(ts[..|ts| - 2]) + {(f.q, f.eq)}
  {
    var n := |ts|;
    WordsAround(ts, n - 2);
    assert ts[n - 2 + 1..] == [ts[n - 1]];
    WordsOne(ts[n - 1]);
  }

  lemma {:induction false} SimpleWords(ts: Tokens, args: seq<(nat, nat)>, files: seq<File>)
    requires SimpleOf(ts, args, files)
    ensures ArgWords(args) + FileWords(files) == Words(ts)
    decreases |ts|
  {
    var n, a, f := |ts|, |args|, |files|;
    if ts == [] {
    } else if f > 0 && EndsInFile(ts, files[f - 1]) && SimpleOf(ts[..n - 2], args, files[..f - 1]) {
      SimpleWords(ts[..n - 2], args, files[..f - 1]);
      WordsFile(ts, files[f - 1]);
      FileWordsLast(files);
    } else {
      SimpleWords(ts[..n - 1], args[..a - 1], files);
      WordsCat(ts[..n - 1], [ts[n - 1]]);
      WordsOne(ts[n - 1]);
      assert ts == ts[..n - 1] + [ts[n - 1]];
      assert ArgWords(args) == ArgWords(args[..a - 1]) + {args[a - 1]};
    }
  }

  lemma {:induction false} FileWordsLast(files: seq<File>)
    requires files != []
    ensures FileWords(files) == FileWords(files[..|files| - 1]) + {(files[|files| - 1].q, files[|files| - 1].eq)}
  {
    var n := |files| - 1;
    assert files == files[..n] + [files[n]];
  }

  lemma {:induction false} InnerWords(c: Cmd)
    requires Inner(c).Exec?
    ensures TreeWords(c) == ArgWords(Inner(c).args) + FileWords(Files(c))
  {
    if c.Redir? {
      InnerWords(c.cmd);
      FileWordsLast(Files(c));
      assert Files(c)[..|Files(c)| - 1] == Files(c.cmd);
    }
  }

  lemma {:induction false} BlockWords(ts: Tokens, c: Cmd)
    requires BlockOf(ts, c)
    ensures TreeWords(c) == Words(ts)
    decreases |ts|, 0
  {
    var n := |ts|;
    if c.Redir? && EndsInFile(ts, c.file) && BlockOf(ts[..n - 2], c.cmd) {
      BlockWords(ts[..n - 2], c.cmd);
      WordsFile(ts, c.file);
    } else {
      LineWords(ts[1..n - 1], c);
      WordsAround(ts, 0);
      WordsAround(ts[1..], n - 2);
      assert ts[1..][..n - 2] == ts[1..n - 1] && ts[..0] == [] && ts[1..][n - 1..] == [];
    }
  }

  lemma {:induction false} ExecWords(ts: Tokens, c: Cmd)
    requires ExecOf(ts, c)
    ensures TreeWords(c) == Words(ts)
    decreases |ts|, 1
  {
    if Inner(c).Exec? && |Inner(c).args| < MAXARGS && SimpleOf(ts, Inner(c).args, Files(c)) {
      SimpleWords(ts, Inner(c).args, Files(c));
      InnerWords(c);
    } else {
      BlockWords(ts, c);
    }
  }

  lemma {:induction false} PipeWords(ts: Tokens, c: Cmd)
    requires PipeOf(ts, c)
    ensures TreeWords(c) == Words(ts)
    decreases |ts|, 2
  {
    if ExecOf(ts, c) {
      ExecWords(ts, c);
    } else {
      var k: nat :| PipeAt(ts, c, k);
      ExecWords(ts[..k], c.left);
      PipeWords(ts[k + 1..], c.right);
      WordsAround(ts, k);
    }
  }

  lemma {:induction false} JobWords(ts: Tokens, c: Cmd)
    requires JobOf(ts, c)
    ensures TreeWords(c) == Words(ts)
    decreases |ts|, 3
  {
    if PipeOf(ts, c) {
      PipeWords(ts, c);
    } else {
      var n := |ts| - 1;
      JobWords(ts[..n], c.cmd);
      WordsAround(ts, n);
      assert ts[n + 1..] == [];
    }
  }

  /** The words of the tree are exactly the word tokens of the line. */
  lemma {:induction false} LineWords(ts: Tokens, c: Cmd)
    requires LineOf(ts, c)
    ensures TreeWords(c) == Words(ts)
    decreases |ts|, 4
  {
    if JobOf(ts, c) {
      JobWords(ts, c);
    } else {
      var k: nat :| ListAt(ts, c, k);
      JobWords(ts[..k], c.left);
      LineWords(ts[k + 1..], c.right);
      WordsAround(ts, k);
    }
  }

  /** A longest run of plain characters. */
  predicate WordOk(s: string, w: (nat, nat)) {
    && w.0 < w.1 <= |s| && (forall k :: w.0 <= k < w.1 ==> Plain(s[k]))
    && (w.0 > 0 ==> !Plain(s[w.0 - 1])) && (w.1 < |s| ==> !Plain(s[w.1]))
  }

  /** No word runs across position i. */
  predicate Boundary(s: string, i: nat) {
    i <= |s| && (0 < i < |s| ==> !Plain(s[i - 1]) || !Plain(s[i]))
  }

  lemma {:induction false} SkipWhites(s: string, i: nat, k: nat)
    requires i <= |s| && i <= k < Skip(s, i)
    ensures k < |s| && White(s[k])
    decreases |s| - i
  {
    if i < k { SkipWhites(s, i + 1, k); }
  }

  /** White space from a boundary on ends at a boundary. */
  lemma {:induction false} SkipBoundary(s: string, i: nat)
    requires Boundary(s, i)
    ensures Boundary(s, Skip(s, i))
  {
    var j := Skip(s, i);
    if i < j { SkipWhites(s, i, j - 1); }
  }

  /** A token begins and ends at a boundary, and a word token is a word. */
  lemma {:induction false} TokenWord(s: string, i: nat)
    requires Boundary(s, i)
    ensures var t := TokenAt(s, i);
      && (t.kind == 'a' ==> WordOk(s, (t.q, t.eq))) && Boundary(s, t.eq) && Boundary(s, t.next)
  {
    var t := TokenAt(s, i);
    SkipBoundary(s, i);
    assert Boundary(s, t.eq);
    SkipBoundary(s, t.eq);
  }

  lemma {:induction false} WordsNext(s: string, i: nat, w: (nat, nat))
    requires i <= |s| && Toks(s, i) != []
    ensures var t := TokenAt(s, i);
      w in Words(Toks(s, i)) <==> (t.kind == 'a' && w == (t.q, t.eq)) || w in Words(Toks(s, t.next))
  {
    var t := TokenAt(s, i);
    WordsOne(t);
    WordsCat([t], Toks(s, t.next));
  }

  lemma {:induction false} WordsOk(s: string, i: nat, w: (nat, nat))
    requires Boundary(s, i) && w in Words(Toks(s, i))
    ensures WordOk(s, w)
    decreases |s| - i
  {
    var t := TokenAt(s, i);
    WordsNext(s, i, w);
    TokenWord(s, i);
    if !(t.kind == 'a' && w == (t.q, t.eq)) { WordsOk(s, t.next, w); }
  }

  /** A run that begins at or after i does not begin inside the white space or the
      token there. */
  lemma {:induction false} WordBeyond(s: string, i: nat, w: (nat, nat))
    requires i <= |s| && WordOk(s, w) && i <= w.0
    ensures var t := TokenAt(s, i);
      t.kind != '\0' && ((t.kind == 'a' && w == (t.q, t.eq)) || t.next <= w.0)
  {
    var t := TokenAt(s, i);
    if w.0 < t.q { SkipWhites(s, i, w.0); }
    if t.eq <= w.0 < t.next { SkipWhites(s, t.eq, w.0); }
  }

  lemma {:induction false} WordsAll(s: string, i: nat, w: (nat, nat))
    requires i <= |s| && WordOk(s, w) && i <= w.0
    ensures w in Words(Toks(s, i))
    decreases |s| - i
  {
    var t := TokenAt(s, i);
    WordBeyond(s, i, w);
    WordsNext(s, i, w);
    if !(t.kind == 'a' && w == (t.q, t.eq)) { WordsAll(s, t.next, w); }
  }

  /** The word tokens of a line are exactly its longest runs of plain characters. */
  lemma {:induction false} WordsExact(s: string, w: (nat, nat))
    ensures w in Words(Toks(s, 0)) <==> WordOk(s, w)
  {
    if w in Words(Toks(s, 0)) { WordsOk(s, 0, w); }
    if WordOk(s, w) { WordsAll(s, 0, w); }
  }

  // ----- cutting up the line -----

  /** The buffer: the line and its NUL. */
  function Buffer(s: string): (b: string) { s + ['\0'] }

  /** The buffer after *eq = 0 at the ends of these words. */
  predicate CutAt(b: string, b': string, w: set<(nat, nat)>) {
    |b'| == |b| && forall k: nat :: k < |b| ==> b'[k] == if EndsAt(w, k) then '\0' else b[k]
  }

  predicate EndsAt(w: set<(nat, nat)>, k: nat) { exists x :: x in w && x.1 == k }

  predicate Within(w: set<(nat, nat)>, n: nat) { forall x :: x in w ==> x.1 < n }

  lemma {:induction false} CutTrans(b0: string, b1: string, b2: string, v: set<(nat, nat)>, w: set<(nat, nat)>)
    requires CutAt(b0, b1, v) && CutAt(b1, b2, w)
    ensures CutAt(b0, b2, v + w)
  {
    forall k: nat | k < |b0| ensures b2[k] == if EndsAt(v + w, k) then '\0' else b0[k] {
      assert EndsAt(v + w, k) <==> EndsAt(v, k) || EndsAt(w, k) by {
        if x :| x in v && x.1 == k { assert x in v + w; }
        if x :| x in w && x.1 == k { assert x in v + w; }
      }
    }
  }

  lemma {:induction false} CutOne(b: string, x: (nat, nat))
    requires x.1 < |b|
    ensures CutAt(b, b[x.1 := '\0'], {x})
  {
    forall k: nat | k < |b| ensures b[x.1 := '\0'][k] == if EndsAt({x}, k) then '\0' else b[k] {
      assert x in {x};
    }
  }

  /** nulterminate(): puts a NUL at the end of every word of the tree and changes
      nothing else. */
  method Nulterminate(c: Cmd, b: array<char>)
    requires Within(TreeWords(c), b.Length)
    modifies b
    ensures CutAt(old(b[..]), b[..], TreeWords(c))
    decreases c
  {
    match c
    case Exec(args) =>
      var i := 0;
      assert ArgWords(args[..0]) == {};
      while i < |args|
        invariant i <= |args| && CutAt(old(b[..]), b[..], ArgWords(args[..i]))
      {
        assert args[i] in TreeWords(c);
        PutNul(b, args[i], old(b[..]), ArgWords(args[..i]));
        assert ArgWords(args[..i + 1]) == ArgWords(args[..i]) + {args[i]};
        i := i + 1;
      }
      assert args[..i] == args;
    case Redir(d, f) =>
      Nulterminate(d, b);
      assert (f.q, f.eq) in TreeWords(c);
      PutNul(b, (f.q, f.eq), old(b[..]), TreeWords(d));
    case Pipe(l, r) =>
      Nulterminate(l, b);
      ghost var b1 := b[..];
      Nulterminate(r, b);
      CutTrans(old(b[..]), b1, b[..], TreeWords(l), TreeWords(r));
    case List(l, r) =>
      Nulterminate(l, b);
      ghost var b1 := b[..];
      Nulterminate(r, b);
      CutTrans(old(b[..]), b1, b[..], TreeWords(l), TreeWords(r));
    case Back(d) =>
      Nulterminate(d, b);
  }

  /** *eq = 0 */
  method PutNul(b: array<char>, x: (nat, nat), ghost b0: string, ghost w: set<(nat, nat)>)
    requires x.1 < b.Length && CutAt(b0, b[..], w)
    modifies b
    ensures CutAt(b0, b[..], w + {x})
  {
    CutOne(b[..], x);
    b[x.1] := '\0';
    assert b[..] == old(b[..])[x.1 := '\0'];
    CutTrans(b0, old(b[..]), b[..], w, {x});
  }

  /** A word of the line as a C string in the buffer. */
  predicate ReadsAs(s: string, b: string, w: (nat, nat)) {
    w.0 < w.1 < |b| && w.1 <= |s| && b[w.0..w.1] == s[w.0..w.1] && b[w.1] == '\0' && '\0' !in b[w.0..w.1]
  }

  /** No terminator damages another word: words are runs of plain characters, and
      what ends a word is not a plain character. */
  lemma {:induction false} CutKeepsWords(s: string, b: string, w: (nat, nat))
    requires '\0' !in s && CutAt(Buffer(s), b, Words(Toks(s, 0))) && w in Words(Toks(s, 0))
    ensures ReadsAs(s, b, w)
  {
    WordsOk(s, 0, w);
    forall k: nat | w.0 <= k < w.1 ensures b[k] == s[k] && s[k] != '\0' {
      forall x | x in Words(Toks(s, 0)) ensures x.1 != k {
        WordsOk(s, 0, x);
      }
      assert s[k] in s;
    }
    assert EndsAt(Words(Toks(s, 0)), w.1);
  }

  /** parsecmd(): accepts exactly the lines of the grammar and gives their tree; each
      word of the line then reads as a C string in the buffer. */
  method Parsecmd(b: array<char>) returns (r: Option<Cmd>)
    requires b.Length > 0 && b[b.Length - 1] == '\0' && '\0' !in b[..b.Length - 1]
    modifies b
    ensures r.None? ==> NoLine(Toks(old(b[..b.Length - 1]), 0))
    ensures r.Some? ==> LineOf(Toks(old(b[..b.Length - 1]), 0), r.value)
    ensures r.None? ==> b[..] == old(b[..])
    ensures r.Some? ==> CutAt(old(b[..]), b[..], Words(Toks(old(b[..b.Length - 1]), 0)))
    ensures r.Some? ==> var s := old(b[..b.Length - 1]); forall w :: w in Words(Toks(s, 0)) ==> ReadsAs(s, b[..], w)
  {
    var s := b[..b.Length - 1];
    assert Buffer(s) == b[..];
    ghost var ts := Toks(s, 0);
    forall c ensures LineParse(ts) == Some(Parse(c, [])) <==> LineOf(ts, c) {
      ParserExact(ts, c);
    }
    var line := Parseline(s, 0);
    if line.None? {
      return None;
    }
    var c, j := line.value.0, line.value.1;
    var left, k := Peek(s, j, "");
    if k != |s| {
      assert Toks(s, k) != [];
      return None;
    }
    assert LineOf(ts, c);
    LineWords(ts, c);
    forall w | w in TreeWords(c) ensures w.1 < b.Length {
      WordsOk(s, 0, w);
    }
    Nulterminate(c, b);
    forall w | w in Words(ts) ensures ReadsAs(s, b[..], w) {
      CutKeepsWords(s, b[..], w);
    }
    return Some(c);
  }
}
