/** What a tree says about the characters of its line: which words are arguments, where
    the pipes, lists and background jobs are, and what each redirection does. */
module ShellText {
  import opened ShellGrammar
  import opened Shell

  /** A word that is an argument, or one of the characters | ; & */
  datatype Item = Word(q: nat, eq: nat) | Sep(c: char)

  // ----- a tree read from left to right -----

  function ArgItems(args: seq<(nat, nat)>): (r: seq<Item>) {
    if args == [] then [] else ArgItems(args[..|args| - 1]) + [Word(args[|args| - 1].0, args[|args| - 1].1)]
  }

  /** The arguments and separators of a tree in order. */
  function Show(c: Cmd): (r: seq<Item>) {
    match c
    case Exec(args) => ArgItems(args)
    case Redir(d, _) => Show(d)
    case Pipe(l, r) => Show(l) + [Sep('|')] + Show(r)
    case List(l, r) => Show(l) + [Sep(';')] + Show(r)
    case Back(d) => Show(d) + [Sep('&')]
  }

  /** The redirections of a tree in order. */
  function ShowFiles(c: Cmd): (r: seq<File>) {
    match c
    case Exec(_) => []
    case Redir(d, f) => ShowFiles(d) + [f]
    case Pipe(l, r) => ShowFiles(l) + ShowFiles(r)
    case List(l, r) => ShowFiles(l) + ShowFiles(r)
    case Back(d) => ShowFiles(d)
  }

  // ----- tokens read from left to right -----

  function ItemOf(t: Token): (r: seq<Item>) {
    if t.kind == 'a' then [Word(t.q, t.eq)]
    else if t.kind == '|' || t.kind == ';' || t.kind == '&' then [Sep(t.kind)]
    else []
  }

  /** A redirection operator takes the next token with it. */
  function TokenItems(ts: Tokens): (r: seq<Item>) {
    if ts == [] then []
    else if IsRedir(ts[0].kind) && |ts| > 1 then TokenItems(ts[2..])
    else ItemOf(ts[0]) + TokenItems(ts[1..])
  }

  function Redirections(ts: Tokens): (r: seq<File>) {
    if ts == [] then []
    else if IsRedir(ts[0].kind) && |ts| > 1 then [FileOf(ts[0].kind, ts[1])] + Redirections(ts[2..])
    else Redirections(ts[1..])
  }

  predicate PairedAt(ts: Tokens, i: nat) {
    i < |ts| && IsRedir(ts[i].kind) ==> i + 1 < |ts| && ts[i + 1].kind == 'a'
  }

  /** Every redirection operator has a word after it. */
  ghost predicate Paired(ts: Tokens) { forall i: nat {:trigger PairedAt(ts, i)} :: PairedAt(ts, i) }

  /** Tokens, and what they amount to. */
  ghost predicate Reads(ts: Tokens, items: seq<Item>, files: seq<File>) {
    Paired(ts) && TokenItems(ts) == items && Redirections(ts) == files
  }

  lemma {:induction false} PairedCat(a: Tokens, b: Tokens)
    requires Paired(a) && Paired(b)
    ensures Paired(a + b)
  {
    forall i: nat ensures PairedAt(a + b, i) {
      assert PairedAt(a, i) && (i >= |a| ==> PairedAt(b, i - |a|));
    }
  }

  lemma {:induction false} PairedDrop(a: Tokens, n: nat)
    requires Paired(a) && n <= |a|
    ensures Paired(a[n..])
  {
    forall i: nat ensures PairedAt(a[n..], i) {
      assert PairedAt(a, n + i);
    }
  }

  lemma {:induction false} ReadsCat(a: Tokens, b: Tokens)
    requires Paired(a)
    ensures TokenItems(a + b) == TokenItems(a) + TokenItems(b)
    ensures Redirections(a + b) == Redirections(a) + Redirections(b)
    decreases |a|
  {
    if a == [] {
      assert a + b == b;
    } else {
      assert PairedAt(a, 0);
      var n := if IsRedir(a[0].kind) then 2 else 1;
      PairedDrop(a, n);
      ReadsCat(a[n..], b);
      assert (a + b)[n..] == a[n..] + b;
    }
  }

  lemma {:induction false} Joined(a: Tokens, ia: seq<Item>, fa: seq<File>, b: Tokens, ib: seq<Item>, fb: seq<File>)
    requires Reads(a, ia, fa) && Reads(b, ib, fb)
    ensures Reads(a + b, ia + ib, fa + fb)
  {
    PairedCat(a, b);
    ReadsCat(a, b);
  }

  lemma {:induction false} OneToken(t: Token)
    requires !IsRedir(t.kind)
    ensures Reads([t], ItemOf(t), [])
  {
    assert [t][1..] == [];
  }

  lemma {:induction false} OneRedirection(op: Token, w: Token)
    requires IsRedir(op.kind) && w.kind == 'a'
    ensures Reads([op, w], [], [FileOf(op.kind, w)])
  {
    assert [op, w][2..] == [];
  }

  /** Two parts around a token. */
  lemma {:induction false} Around(ts: Tokens, k: nat, ia: seq<Item>, fa: seq<File>, ib: seq<Item>, fb: seq<File>)
    requires k < |ts| && !IsRedir(ts[k].kind) && Reads(ts[..k], ia, fa) && Reads(ts[k + 1..], ib, fb)
    ensures Reads(ts, ia + ItemOf(ts[k]) + ib, fa + fb)
  {
    OneToken(ts[k]);
    Joined(ts[..k], ia, fa, [ts[k]], ItemOf(ts[k]), []);
    Joined(ts[..k] + [ts[k]], ia + ItemOf(ts[k]), fa + [], ts[k + 1..], ib, fb);
    assert ts == ts[..k] + [ts[k]] + ts[k + 1..] && fa + [] == fa;
  }

  lemma {:induction false} NoTokens()
    ensures Reads([], [], [])
  {
  }

  lemma {:induction false} WithFile(ts: Tokens, items: seq<Item>, files: seq<File>, f: File)
    requires EndsInFile(ts, f) && Reads(ts[..|ts| - 2], items, files)
    ensures Reads(ts, items, files + [f])
  {
    var n := |ts|;
    OneRedirection(ts[n - 2], ts[n - 1]);
    Joined(ts[..n - 2], items, files, [ts[n - 2], ts[n - 1]], [], [f]);
    assert ts == ts[..n - 2] + [ts[n - 2], ts[n - 1]] && items + [] == items;
  }

  // ----- trees of the grammar -----

  lemma {:induction false} SimpleReads(ts: Tokens, args: seq<(nat, nat)>, files: seq<File>)
    requires SimpleOf(ts, args, files)
    ensures Reads(ts, ArgItems(args), files)
    decreases |ts|
  {
    hide Reads, FileOf;
    var n, a, f := |ts|, |args|, |files|;
    if ts == [] {
      NoTokens();
    } else if f > 0 && EndsInFile(ts, files[f - 1]) && SimpleOf(ts[..n - 2], args, files[..f - 1]) {
      SimpleReads(ts[..n - 2], args, files[..f - 1]);
      WithFile(ts, ArgItems(args), files[..f - 1], files[f - 1]);
      assert files[..f - 1] + [files[f - 1]] == files;
    } else {
      SimpleReads(ts[..n - 1], args[..a - 1], files);
      NoTokens();
      assert ts[n..] == [];
      Around(ts, n - 1, ArgItems(args[..a - 1]), files, [], []);
      assert ArgItems(args) + [] == ArgItems(args) && files + [] == files;
    }
  }

  lemma {:induction false} ShowInner(c: Cmd)
    requires Inner(c).Exec?
    ensures Show(c) == ArgItems(Inner(c).args) && ShowFiles(c) == Files(c)
  {
    if c.Redir? { ShowInner(c.cmd); }
  }

  lemma {:induction false} BlockReads(ts: Tokens, c: Cmd)
    requires BlockOf(ts, c)
    ensures Reads(ts, Show(c), ShowFiles(c))
    decreases |ts|, 0
  {
    hide Reads, FileOf;
    var n := |ts|;
    if c.Redir? && EndsInFile(ts, c.file) && BlockOf(ts[..n - 2], c.cmd) {
      BlockReads(ts[..n - 2], c.cmd);
      WithFile(ts, Show(c.cmd), ShowFiles(c.cmd), c.file);
    } else {
      LineReads(ts[1..n - 1], c);
      NoTokens();
      assert ts[1..][..n - 2] == ts[1..n - 1] && ts[1..][n - 1..] == [] && ts[..0] == [];
      Around(ts[1..], n - 2, Show(c), ShowFiles(c), [], []);
      assert Show(c) + [] + [] == Show(c) && ShowFiles(c) + [] == ShowFiles(c);
      Around(ts, 0, [], [], Show(c), ShowFiles(c));
      assert [] + [] + Show(c) == Show(c) && [] + ShowFiles(c) == ShowFiles(c);
    }
  }

  lemma {:induction false} ExecReads(ts: Tokens, c: Cmd)
    requires ExecOf(ts, c)
    ensures Reads(ts, Show(c), ShowFiles(c))
    decreases |ts|, 1
  {
    hide Reads;
    if Inner(c).Exec? && |Inner(c).args| < MAXARGS && SimpleOf(ts, Inner(c).args, Files(c)) {
      SimpleReads(ts, Inner(c).args, Files(c));
      ShowInner(c);
    } else {
      BlockReads(ts, c);
    }
  }

  lemma {:induction false} PipeReads(ts: Tokens, c: Cmd)
    requires PipeOf(ts, c)
    ensures Reads(ts, Show(c), ShowFiles(c))
    decreases |ts|, 2
  {
    hide Reads;
    if ExecOf(ts, c) {
      ExecReads(ts, c);
    } else {
      var k: nat :| PipeAt(ts, c, k);
      ExecReads(ts[..k], c.left);
      PipeReads(ts[k + 1..], c.right);
      Around(ts, k, Show(c.left), ShowFiles(c.left), Show(c.right), ShowFiles(c.right));
    }
  }

  lemma {:induction false} JobReads(ts: Tokens, c: Cmd)
    requires JobOf(ts, c)
    ensures Reads(ts, Show(c), ShowFiles(c))
    decreases |ts|, 3
  {
    hide Reads;
    if PipeOf(ts, c) {
      PipeReads(ts, c);
    } else {
      var n := |ts| - 1;
      JobReads(ts[..n], c.cmd);
      NoTokens();
      assert ts[n + 1..] == [];
      Around(ts, n, Show(c.cmd), ShowFiles(c.cmd), [], []);
      assert Show(c) + [] == Show(c) && ShowFiles(c) + [] == ShowFiles(c);
    }
  }

  /** The tree has the line's arguments, separators and redirections, in its order. */
  lemma {:induction false} LineReads(ts: Tokens, c: Cmd)
    requires LineOf(ts, c)
    ensures Reads(ts, Show(c), ShowFiles(c))
    decreases |ts|, 4
  {
    hide Reads;
    if JobOf(ts, c) {
      JobReads(ts, c);
    } else {
      var k: nat :| ListAt(ts, c, k);
      JobReads(ts[..k], c.left);
      LineReads(ts[k + 1..], c.right);
      Around(ts, k, Show(c.left), ShowFiles(c.left), Show(c.right), ShowFiles(c.right));
    }
  }

  // ----- the characters of the line -----

  /** The line read character by character: its words, but for those after < or >, and
      the characters | ; & in order. op says that the last character that was not white
      space was < or >. */
  function Scan(s: string, i: nat, op: bool): (r: seq<Item>)
    requires i <= |s|
    decreases |s| - i
  {
    if i == |s| then []
    else if White(s[i]) then Scan(s, i + 1, op)
    else if Plain(s[i]) then (if op then [] else [Word(i, WordEnd(s, i))]) + Scan(s, WordEnd(s, i), false)
    else
      (if s[i] == '|' || s[i] == ';' || s[i] == '&' then [Sep(s[i])] else [])
        + Scan(s, i + 1, s[i] == '<' || s[i] == '>')
  }

  lemma {:induction false} ScanSkip(s: string, i: nat, op: bool)
    requires i <= |s|
    ensures Scan(s, i, op) == Scan(s, Skip(s, i), op)
    decreases |s| - i
  {
    if i < |s| && White(s[i]) { ScanSkip(s, i + 1, op); }
  }

  /** A token, from its first character to its end. */
  lemma {:induction false} ScanText(s: string, i: nat, op: bool)
    requires i <= |s| && TokenAt(s, i).kind != '\0'
    ensures var t := TokenAt(s, i);
      Scan(s, t.q, op) == (if t.kind == 'a' && op then [] else ItemOf(t)) + Scan(s, t.eq, IsRedir(t.kind))
  {
    var t := TokenAt(s, i);
    if t.kind == '+' { assert [] + Scan(s, t.q + 1, true) == Scan(s, t.q + 1, true); }
  }

  lemma {:induction false} ScanToken(s: string, i: nat, op: bool)
    requires i <= |s| && Toks(s, i) != []
    ensures var t := TokenAt(s, i);
      Scan(s, i, op) == (if t.kind == 'a' && op then [] else ItemOf(t)) + Scan(s, t.next, IsRedir(t.kind))
  {
    var t := TokenAt(s, i);
    ScanSkip(s, i, op);
    ScanText(s, i, op);
    ScanSkip(s, t.eq, IsRedir(t.kind));
    hide Scan, ItemOf;
  }

  lemma {:induction false} ScanItems(s: string, i: nat)
    requires i <= |s| && Paired(Toks(s, i))
    ensures TokenItems(Toks(s, i)) == Scan(s, i, false)
    decreases |s| - i
  {
    var ts := Toks(s, i);
    if ts == [] {
      ScanSkip(s, i, false);
    } else {
      NextToks(s, i);
      var t := TokenAt(s, i);
      ScanToken(s, i, false);
      assert PairedAt(ts, 0);
      if IsRedir(t.kind) {
        NextToks(s, t.next);
        ScanToken(s, t.next, true);
        PairedDrop(ts, 2);
        assert ts[2..] == ts[1..][1..];
        ScanItems(s, TokenAt(s, t.next).next);
      } else {
        PairedDrop(ts, 1);
        ScanItems(s, t.next);
      }
    }
  }

  /** Position p has the operator of this redirection, and only white space lies between
      it and the file: < reads into descriptor 0, > truncates and >> appends, both for
      descriptor 1. */
  predicate OperatorAt(s: string, f: File, p: nat) {
    && p < f.q <= |s| && (forall k :: p < k < f.q ==> White(s[k]))
    && match f.mode
       case Read => s[p] == '<' && f.fd == 0
       case CreateTruncate => s[p] == '>' && (p == 0 || s[p - 1] != '>') && f.fd == 1
       case Create => s[p] == '>' && p > 0 && s[p - 1] == '>' && f.fd == 1
  }

  ghost predicate HasOperator(s: string, f: File) { exists p: nat :: OperatorAt(s, f, p) }

  /** No > right before i. */
  predicate Clear(s: string, i: nat) { i <= |s| && (i > 0 ==> s[i - 1] != '>') }

  lemma {:induction false} ClearNext(s: string, i: nat)
    requires Clear(s, i)
    ensures Clear(s, Skip(s, i))
  {
    var j := Skip(s, i);
    if i < j { SkipWhites(s, i, j - 1); }
  }

  lemma {:induction false} TokenClear(s: string, i: nat)
    requires Clear(s, i)
    ensures var t := TokenAt(s, i); Clear(s, t.q) && (!IsRedir(t.kind) ==> Clear(s, t.next))
  {
    var t := TokenAt(s, i);
    ClearNext(s, i);
    if !IsRedir(t.kind) {
      assert Clear(s, t.eq);
      ClearNext(s, t.eq);
    }
  }

  lemma {:induction false} OperatorHere(s: string, i: nat)
    requires Clear(s, i) && Toks(s, i) != [] && IsRedir(TokenAt(s, i).kind)
    ensures var t := TokenAt(s, i); HasOperator(s, FileOf(t.kind, TokenAt(s, t.next)))
  {
    var t := TokenAt(s, i);
    var w := TokenAt(s, t.next);
    TokenClear(s, i);
    assert Skip(s, t.next) == t.next;
    forall k | t.eq <= k < w.q ensures White(s[k]) {
      SkipWhites(s, t.eq, k);
    }
    assert OperatorAt(s, FileOf(t.kind, w), t.eq - 1);
  }

  lemma {:induction false} OperatorsFrom(s: string, i: nat, k: nat)
    requires Clear(s, i) && Paired(Toks(s, i)) && k < |Redirections(Toks(s, i))|
    ensures HasOperator(s, Redirections(Toks(s, i))[k])
    decreases |s| - i
  {
    hide HasOperator;
    var ts := Toks(s, i);
    NextToks(s, i);
    var t := TokenAt(s, i);
    TokenClear(s, i);
    assert PairedAt(ts, 0);
    if IsRedir(t.kind) {
      NextToks(s, t.next);
      OperatorHere(s, i);
      var w := TokenAt(s, t.next);
      assert ts[2..] == ts[1..][1..];
      if k > 0 {
        PairedDrop(ts, 2);
        WordClear(s, t.next);
        OperatorsFrom(s, w.next, k - 1);
      }
    } else {
      PairedDrop(ts, 1);
      OperatorsFrom(s, t.next, k);
    }
  }

  /** After a word there is no >, whatever was before it. */
  lemma {:induction false} WordClear(s: string, i: nat)
    requires i <= |s| && TokenAt(s, i).kind == 'a'
    ensures Clear(s, TokenAt(s, i).next)
  {
    ClearNext(s, TokenAt(s, i).eq);
  }

  /** The tree of a line against its characters: the arguments and the characters | ; &
      are those of the line, in its order, and every redirection is the one its operator
      asks for. */
  lemma {:induction false} TreeReads(s: string, c: Cmd)
    requires LineOf(Toks(s, 0), c)
    ensures Show(c) == Scan(s, 0, false)
    ensures forall f :: f in ShowFiles(c) ==> HasOperator(s, f)
  {
    LineReads(Toks(s, 0), c);
    ScanItems(s, 0);
    forall k: nat | k < |ShowFiles(c)| ensures HasOperator(s, ShowFiles(c)[k]) {
      OperatorsFrom(s, 0, k);
    }
  }

  // ----- grouping -----

  /** | binds more closely than &, and & than ; and redirections belong to one command. */
  predicate Grouped(c: Cmd) {
    match c
    case Exec(_) => true
    case Redir(d, _) => Inner(d).Exec?
    case Pipe(l, r) =>
      && Grouped(l) && Grouped(r) && Sep('|') !in Show(l)
      && Sep('&') !in Show(c) && Sep(';') !in Show(c)
    case Back(d) => Grouped(d) && Sep(';') !in Show(d)
    case List(l, r) => Grouped(l) && Grouped(r) && Sep(';') !in Show(l)
  }

  ghost predicate NoParen(ts: Tokens) { forall k :: 0 <= k < |ts| ==> ts[k].kind != '(' }

  lemma {:induction false} OnlyWords(args: seq<(nat, nat)>, ch: char)
    ensures Sep(ch) !in ArgItems(args)
  {
    if args != [] { OnlyWords(args[..|args| - 1], ch); }
  }

  lemma {:induction false} CommandGrouped(c: Cmd, ch: char)
    requires Inner(c).Exec?
    ensures Grouped(c) && Sep(ch) !in Show(c)
  {
    if c.Redir? { CommandGrouped(c.cmd, ch); } else { OnlyWords(c.args, ch); }
  }

  lemma {:induction false} NotBlock(ts: Tokens, c: Cmd)
    requires NoParen(ts)
    ensures !BlockOf(ts, c)
    decreases |ts|
  {
    if c.Redir? && |ts| >= 2 { NotBlock(ts[..|ts| - 2], c.cmd); }
  }

  lemma {:induction false} ExecGrouped(ts: Tokens, c: Cmd, ch: char)
    requires ExecOf(ts, c) && NoParen(ts)
    ensures Grouped(c) && Sep(ch) !in Show(c)
  {
    NotBlock(ts, c);
    CommandGrouped(c, ch);
  }

  lemma {:induction false} PipeGrouped(ts: Tokens, c: Cmd)
    requires PipeOf(ts, c) && NoParen(ts)
    ensures Grouped(c) && Sep('&') !in Show(c) && Sep(';') !in Show(c)
    decreases |ts|
  {
    if ExecOf(ts, c) {
      ExecGrouped(ts, c, '&');
      ExecGrouped(ts, c, ';');
    } else {
      var k: nat :| PipeAt(ts, c, k);
      ExecGrouped(ts[..k], c.left, '|');
      ExecGrouped(ts[..k], c.left, '&');
      ExecGrouped(ts[..k], c.left, ';');
      PipeGrouped(ts[k + 1..], c.right);
    }
  }

  lemma {:induction false} JobGrouped(ts: Tokens, c: Cmd)
    requires JobOf(ts, c) && NoParen(ts)
    ensures Grouped(c) && Sep(';') !in Show(c)
    decreases |ts|
  {
    if PipeOf(ts, c) {
      PipeGrouped(ts, c);
    } else {
      JobGrouped(ts[..|ts| - 1], c.cmd);
    }
  }

  lemma {:induction false} LineGrouped(ts: Tokens, c: Cmd)
    requires LineOf(ts, c) && NoParen(ts)
    ensures Grouped(c)
    decreases |ts|
  {
    if JobOf(ts, c) {
      JobGrouped(ts, c);
    } else {
      var k: nat :| ListAt(ts, c, k);
      JobGrouped(ts[..k], c.left);
      LineGrouped(ts[k + 1..], c.right);
    }
  }

  lemma {:induction false} NoParens(s: string, i: nat)
    requires i <= |s| && forall k :: i <= k < |s| ==> s[k] != '('
    ensures NoParen(Toks(s, i))
    decreases |s| - i
  {
    var ts := Toks(s, i);
    if ts != [] {
      NextToks(s, i);
      NoParens(s, ts[0].next);
      assert forall k :: 0 < k < |ts| ==> ts[k] == ts[1..][k - 1];
    }
  }

  /** How a line without parentheses is grouped: what stands left of a ; has no ; in it, an
      & takes all since the last ; and a | takes one command on its left. */
  lemma {:induction false} Precedence(s: string, c: Cmd)
    requires LineOf(Toks(s, 0), c) && '(' !in s
    ensures Grouped(c)
  {
    NoParens(s, 0);
    LineGrouped(Toks(s, 0), c);
  }
}
