/** The command language of user/sh.c: its grammar over tokens, the recursive-descent
    parser as functions, and the proof that they agree. */
module ShellGrammar {
  import opened Bytes

  const MAXARGS: nat := 10

  /** O_RDONLY; O_WRONLY|O_CREATE|O_TRUNC; O_WRONLY|O_CREATE */
  datatype Mode = Read | CreateTruncate | Create

  /** Words are (start, end) pairs: argv and eargv, file and efile. */
  datatype Cmd =
    | Exec(args: seq<(nat, nat)>)
    | Redir(cmd: Cmd, file: File)
    | Pipe(left: Cmd, right: Cmd)
    | List(left: Cmd, right: Cmd)
    | Back(cmd: Cmd)

  datatype File = File(q: nat, eq: nat, mode: Mode, fd: nat)

  /** The kind of a token ('a' for a word, '+' for >>), where it starts and ends, and
      where the next one starts. */
  datatype Token = Token(kind: char, q: nat, eq: nat, next: nat)

  type Tokens = seq<Token>

  predicate IsRedir(k: char) { k == '<' || k == '>' || k == '+' }
  predicate EndsExec(k: char) { k == '|' || k == ')' || k == '&' || k == ';' }

  /** The kind of the first token, NUL if there is none. */
  function Head(ts: Tokens): (k: char) { if ts == [] then '\0' else ts[0].kind }

  function FileOf(op: char, w: Token): (f: File) {
    File(w.q, w.eq, if op == '<' then Read else if op == '>' then CreateTruncate else Create,
        if op == '<' then 0 else 1)
  }

  /** The commands redircmd builds, one around the other. */
  function Wrap(c: Cmd, files: seq<File>): (r: Cmd) {
    if files == [] then c else Redir(Wrap(c, files[..|files| - 1]), files[|files| - 1])
  }

  function Inner(c: Cmd): (d: Cmd) { if c.Redir? then Inner(c.cmd) else c }
  function Files(c: Cmd): (fs: seq<File>) { if c.Redir? then Files(c.cmd) + [c.file] else [] }

  lemma {:induction false} WrapInner(args: seq<(nat, nat)>, fs: seq<File>)
    ensures Inner(Wrap(Exec(args), fs)) == Exec(args) && Files(Wrap(Exec(args), fs)) == fs
  {
    if fs != [] { WrapInner(args, fs[..|fs| - 1]); }
  }

  lemma {:induction false} InnerWrap(c: Cmd)
    ensures Wrap(Inner(c), Files(c)) == c
  {
    if c.Redir? {
      InnerWrap(c.cmd);
      assert Files(c)[..|Files(c)| - 1] == Files(c.cmd);
    }
  }

  // ----- the grammar -----

  /** The last two tokens are a redirection to this file. */
  predicate EndsInFile(ts: Tokens, f: File) {
    var n := |ts|;
    n >= 2 && IsRedir(ts[n - 2].kind) && ts[n - 1].kind == 'a' && f == FileOf(ts[n - 2].kind, ts[n - 1])
  }

  /** simple: any mix of words and redirections. */
  predicate SimpleOf(ts: Tokens, args: seq<(nat, nat)>, files: seq<File>)
    decreases |ts|
  {
    var n, a, f := |ts|, |args|, |files|;
    if ts == [] then args == [] && files == []
    else
      || (f > 0 && EndsInFile(ts, files[f - 1]) && SimpleOf(ts[..n - 2], args, files[..f - 1]))
      || (a > 0 && ts[n - 1].kind == 'a' && args[a - 1] == (ts[n - 1].q, ts[n - 1].eq)
           && SimpleOf(ts[..n - 1], args[..a - 1], files))
  }

  /** exec: simple with fewer than MAXARGS words, or block. */
  ghost predicate ExecOf(ts: Tokens, c: Cmd)
    decreases |ts|, 1
  {
    || (Inner(c).Exec? && |Inner(c).args| < MAXARGS && SimpleOf(ts, Inner(c).args, Files(c)))
    || BlockOf(ts, c)
  }

  /** block: ( line ), or block and a redirection. */
  ghost predicate BlockOf(ts: Tokens, c: Cmd)
    decreases |ts|, 0
  {
    var n := |ts|;
    || (c.Redir? && EndsInFile(ts, c.file) && BlockOf(ts[..n - 2], c.cmd))
    || (n >= 2 && ts[0].kind == '(' && ts[n - 1].kind == ')' && LineOf(ts[1..n - 1], c))
  }

  ghost predicate PipeAt(ts: Tokens, c: Cmd, k: nat)
    requires c.Pipe?
    decreases |ts|, 2
  {
    k < |ts| && ts[k].kind == '|' && ExecOf(ts[..k], c.left) && PipeOf(ts[k + 1..], c.right)
  }

  /** pipe: exec, or exec | pipe. */
  ghost predicate PipeOf(ts: Tokens, c: Cmd)
    decreases |ts|, 3
  {
    ExecOf(ts, c) || (c.Pipe? && exists k: nat {:trigger PipeAt(ts, c, k)} :: PipeAt(ts, c, k))
  }

  /** job: pipe, or job &. */
  ghost predicate JobOf(ts: Tokens, c: Cmd)
    decreases |ts|, 4
  {
    var n := |ts|;
    PipeOf(ts, c) || (n > 0 && ts[n - 1].kind == '&' && c.Back? && JobOf(ts[..n - 1], c.cmd))
  }

  ghost predicate ListAt(ts: Tokens, c: Cmd, k: nat)
    requires c.List?
    decreases |ts|, 5
  {
    k < |ts| && ts[k].kind == ';' && JobOf(ts[..k], c.left) && LineOf(ts[k + 1..], c.right)
  }

  /** line: job, or job ; line. */
  ghost predicate LineOf(ts: Tokens, c: Cmd)
    decreases |ts|, 6
  {
    JobOf(ts, c) || (c.List? && exists k: nat {:trigger ListAt(ts, c, k)} :: ListAt(ts, c, k))
  }

  /** The grammar gives these tokens no tree. */
  ghost predicate NoLine(ts: Tokens) { forall c: Cmd :: !LineOf(ts, c) }

  // ----- the parser on tokens -----

  datatype Parse<T> = Parse(value: T, rest: Tokens)

  /** parseredirs(): None where it panics. */
  function Redirs(ts: Tokens, files: seq<File>): (r: Option<Parse<seq<File>>>)
    ensures r.Some? ==> |r.value.rest| <= |ts| && !IsRedir(Head(r.value.rest))
    decreases |ts|
  {
    if !IsRedir(Head(ts)) then Some(Parse(files, ts))
    else if Head(ts[1..]) != 'a' then None
    else Redirs(ts[2..], files + [FileOf(ts[0].kind, ts[1])])
  }

  /** The loop of parseexec(). */
  function Items(ts: Tokens, args: seq<(nat, nat)>, files: seq<File>): (r: Option<Parse<(seq<(nat, nat)>, seq<File>)>>)
    ensures r.Some? ==> |r.value.rest| <= |ts|
    decreases |ts|
  {
    if ts == [] || EndsExec(ts[0].kind) then Some(Parse((args, files), ts))
    else if ts[0].kind == 'a' then
      if |args| + 1 >= MAXARGS then None else Items(ts[1..], args + [(ts[0].q, ts[0].eq)], files)
    else if IsRedir(ts[0].kind) && Head(ts[1..]) == 'a' then Items(ts[2..], args, files + [FileOf(ts[0].kind, ts[1])])
    else None
  }

  /** parseexec() */
  function ExecParse(ts: Tokens): (r: Option<Parse<Cmd>>)
    ensures r.Some? ==> |r.value.rest| <= |ts|
    decreases |ts|, 1
  {
    if Head(ts) == '(' then BlockParse(ts)
    else
      var items := Items(ts, [], []);
      if items.None? then None else Some(Parse(Wrap(Exec(items.value.value.0), items.value.value.1), items.value.rest))
  }

  /** parseblock() */
  function BlockParse(ts: Tokens): (r: Option<Parse<Cmd>>)
    ensures r.Some? ==> |r.value.rest| <= |ts|
    decreases |ts|, 0
  {
    if Head(ts) != '(' then None
    else
      var line := LineParse(ts[1..]);
      if line.None? || Head(line.value.rest) != ')' then None
      else Wrapped(line.value.value, Redirs(line.value.rest[1..], []))
  }

  function Wrapped(c: Cmd, files: Option<Parse<seq<File>>>): (r: Option<Parse<Cmd>>) {
    if files.None? then None else Some(Parse(Wrap(c, files.value.value), files.value.rest))
  }

  /** parsepipe() */
  function PipeParse(ts: Tokens): (r: Option<Parse<Cmd>>)
    ensures r.Some? ==> |r.value.rest| <= |ts|
    decreases |ts|, 2
  {
    var left := ExecParse(ts);
    if left.None? || Head(left.value.rest) != '|' then left
    else
      var right := PipeParse(left.value.rest[1..]);
      if right.None? then None else Some(Parse(Pipe(left.value.value, right.value.value), right.value.rest))
  }

  function Amps(p: Parse<Cmd>): (r: Parse<Cmd>)
    ensures |r.rest| <= |p.rest| && Head(r.rest) != '&'
    decreases |p.rest|
  {
    if Head(p.rest) == '&' then Amps(Parse(Back(p.value), p.rest[1..])) else p
  }

  /** parseline() */
  function LineParse(ts: Tokens): (r: Option<Parse<Cmd>>)
    ensures r.Some? ==> |r.value.rest| <= |ts|
    decreases |ts|, 3
  {
    var pipe := PipeParse(ts);
    if pipe.None? then None
    else
      var job := Amps(pipe.value);
      if Head(job.rest) != ';' then Some(job)
      else
        var right := LineParse(job.rest[1..]);
        if right.None? then None else Some(Parse(List(job.value, right.value.value), right.value.rest))
  }

  // ----- what the parser accepts is in the grammar -----

  /** What was consumed of ts. */
  function Used(ts: Tokens, rest: Tokens): (u: Tokens)
    requires |rest| <= |ts|
  {
    ts[..|ts| - |rest|]
  }

  predicate Suffix(ts: Tokens, rest: Tokens) {
    |rest| <= |ts| && ts == Used(ts, rest) + rest
  }

  lemma {:induction false} SimpleWord(ts: Tokens, args: seq<(nat, nat)>, files: seq<File>, w: Token)
    requires SimpleOf(ts, args, files) && w.kind == 'a'
    ensures SimpleOf(ts + [w], args + [(w.q, w.eq)], files)
  {
    assert (ts + [w])[..|ts|] == ts && (args + [(w.q, w.eq)])[..|args|] == args;
  }

  lemma {:induction false} SimpleFile(ts: Tokens, args: seq<(nat, nat)>, files: seq<File>, op: Token, w: Token)
    requires SimpleOf(ts, args, files) && w.kind == 'a' && IsRedir(op.kind)
    ensures SimpleOf(ts + [op, w], args, files + [FileOf(op.kind, w)])
  {
    assert (ts + [op, w])[..|ts|] == ts && (files + [FileOf(op.kind, w)])[..|files|] == files;
  }

  lemma {:induction false} ItemsSound(done: Tokens, ts: Tokens, args: seq<(nat, nat)>, files: seq<File>)
    requires SimpleOf(done, args, files) && |args| < MAXARGS && Items(ts, args, files).Some?
    ensures var p := Items(ts, args, files).value;
      Suffix(ts, p.rest) && SimpleOf(done + Used(ts, p.rest), p.value.0, p.value.1) && |p.value.0| < MAXARGS
    decreases |ts|
  {
    hide SimpleOf, FileOf;
    var p := Items(ts, args, files).value;
    if ts == [] || EndsExec(ts[0].kind) {
      assert Used(ts, p.rest) == [] && done + [] == done;
    } else {
      var n := if ts[0].kind == 'a' then 1 else 2;
      if n == 1 {
        SimpleWord(done, args, files, ts[0]);
        ItemsSound(done + [ts[0]], ts[1..], args + [(ts[0].q, ts[0].eq)], files);
        assert ts[..1] == [ts[0]];
      } else {
        SimpleFile(done, args, files, ts[0], ts[1]);
        ItemsSound(done + [ts[0], ts[1]], ts[2..], args, files + [FileOf(ts[0].kind, ts[1])]);
        assert ts[..2] == [ts[0], ts[1]];
      }
      UsedMore(done, ts, n, p.rest);
    }
  }

  lemma {:induction false} UsedMore(done: Tokens, ts: Tokens, n: nat, rest: Tokens)
    requires n <= |ts| && Suffix(ts[n..], rest)
    ensures Suffix(ts, rest) && Used(ts, rest) == ts[..n] + Used(ts[n..], rest)
    ensures done + Used(ts, rest) == (done + ts[..n]) + Used(ts[n..], rest)
  {
    assert ts == ts[..n] + ts[n..];
  }

  lemma {:induction false} BlockFile(ts: Tokens, c: Cmd, op: Token, w: Token)
    requires BlockOf(ts, c) && w.kind == 'a' && IsRedir(op.kind)
    ensures BlockOf(ts + [op, w], Redir(c, FileOf(op.kind, w)))
  {
    assert (ts + [op, w])[..|ts|] == ts;
  }

  lemma {:induction false} RedirsSound(done: Tokens, d: Cmd, ts: Tokens, files: seq<File>)
    requires BlockOf(done, Wrap(d, files)) && Redirs(ts, files).Some?
    ensures var p := Redirs(ts, files).value;
      Suffix(ts, p.rest) && BlockOf(done + Used(ts, p.rest), Wrap(d, p.value))
    decreases |ts|
  {
    hide BlockOf, FileOf;
    var p := Redirs(ts, files).value;
    if !IsRedir(Head(ts)) {
      assert Used(ts, p.rest) == [] && done + [] == done;
    } else {
      var f := FileOf(ts[0].kind, ts[1]);
      var done', files' := done + [ts[0], ts[1]], files + [f];
      BlockFile(done, Wrap(d, files), ts[0], ts[1]);
      assert files'[..|files|] == files;
      RedirsSound(done', d, ts[2..], files');
      assert ts[..2] == [ts[0], ts[1]];
      UsedMore(done, ts, 2, p.rest);
    }
  }

  lemma {:induction false} UsedCat(done: Tokens, tail: Tokens, rest: Tokens)
    requires Suffix(tail, rest)
    ensures Suffix(done + tail, rest) && Used(done + tail, rest) == done + Used(tail, rest)
  {
  }

  lemma {:induction false} BlockSound(ts: Tokens)
    requires BlockParse(ts).Some?
    ensures var p := BlockParse(ts).value; Suffix(ts, p.rest) && BlockOf(Used(ts, p.rest), p.value)
    decreases |ts|, 0
  {
    LineSound(ts[1..]);
    hide Redirs, LineParse, LineOf;
    var line := LineParse(ts[1..]).value;
    var body, tail := Used(ts[1..], line.rest), line.rest[1..];
    var done := [ts[0]] + body + [line.rest[0]];
    assert done[1..|done| - 1] == body && ts == done + tail;
    assert Wrap(line.value, []) == line.value;
    RedirsSound(done, line.value, tail, []);
    UsedCat(done, tail, BlockParse(ts).value.rest);
  }

  lemma {:induction false} ExecSound(ts: Tokens)
    requires ExecParse(ts).Some?
    ensures var p := ExecParse(ts).value; Suffix(ts, p.rest) && ExecOf(Used(ts, p.rest), p.value)
    decreases |ts|, 1
  {
    if Head(ts) == '(' {
      BlockSound(ts);
    } else {
      ItemsSound([], ts, [], []);
      var p := Items(ts, [], []).value;
      assert [] + Used(ts, p.rest) == Used(ts, p.rest);
      WrapInner(p.value.0, p.value.1);
    }
  }

  lemma {:induction false} PipeSound(ts: Tokens)
    requires PipeParse(ts).Some?
    ensures var p := PipeParse(ts).value; Suffix(ts, p.rest) && PipeOf(Used(ts, p.rest), p.value)
    decreases |ts|, 2
  {
    ExecSound(ts);
    var left := ExecParse(ts).value;
    if Head(left.rest) == '|' {
      PipeSound(left.rest[1..]);
      var p := PipeParse(ts).value;
      var u, v := Used(ts, left.rest), Used(left.rest[1..], p.rest);
      JoinUsed(ts, left.rest, p.rest);
      assert PipeAt(Used(ts, p.rest), p.value, |u|);
    }
  }

  /** Two parts with one token between them. */
  lemma {:induction false} JoinUsed(ts: Tokens, mid: Tokens, rest: Tokens)
    requires Suffix(ts, mid) && mid != [] && Suffix(mid[1..], rest)
    ensures Suffix(ts, rest) && Used(ts, rest) == Used(ts, mid) + [mid[0]] + Used(mid[1..], rest)
    ensures var u, k := Used(ts, rest), |Used(ts, mid)|;
      k < |u| && u[k] == mid[0] && u[..k] == Used(ts, mid) && u[k + 1..] == Used(mid[1..], rest)
  {
    assert mid == [mid[0]] + mid[1..];
    assert ts == Used(ts, mid) + [mid[0]] + Used(mid[1..], rest) + rest;
  }

  lemma {:induction false} AmpsSound(ts: Tokens, p: Parse<Cmd>)
    requires Suffix(ts, p.rest) && JobOf(Used(ts, p.rest), p.value)
    ensures Suffix(ts, Amps(p).rest) && JobOf(Used(ts, Amps(p).rest), Amps(p).value)
    decreases |p.rest|
  {
    if Head(p.rest) == '&' {
      var rest := p.rest[1..];
      JoinUsed(ts, p.rest, rest);
      assert Used(rest, rest) == [];
      assert Used(ts, rest)[..|Used(ts, rest)| - 1] == Used(ts, p.rest);
      AmpsSound(ts, Parse(Back(p.value), rest));
    }
  }

  /** Whatever parseline accepts is a line of the grammar, with that tree. */
  lemma {:induction false} LineSound(ts: Tokens)
    requires LineParse(ts).Some?
    ensures var p := LineParse(ts).value; Suffix(ts, p.rest) && LineOf(Used(ts, p.rest), p.value)
    decreases |ts|, 3
  {
    PipeSound(ts);
    var job := Amps(PipeParse(ts).value);
    AmpsSound(ts, PipeParse(ts).value);
    if Head(job.rest) == ';' {
      LineSound(job.rest[1..]);
      var p := LineParse(ts).value;
      JoinUsed(ts, job.rest, p.rest);
      assert ListAt(Used(ts, p.rest), p.value, |Used(ts, job.rest)|);
    }
  }

  // ----- what is in the grammar is accepted -----

  lemma {:induction false} ItemsWord(w: Token, more: Tokens, args: seq<(nat, nat)>, files: seq<File>)
    requires w.kind == 'a' && |args| + 1 < MAXARGS
    ensures Items([w] + more, args, files) == Items(more, args + [(w.q, w.eq)], files)
  {
    assert ([w] + more)[1..] == more;
  }

  lemma {:induction false} FileStep(op: Token, w: Token, more: Tokens, args: seq<(nat, nat)>, files: seq<File>)
    requires IsRedir(op.kind) && w.kind == 'a'
    ensures Items([op, w] + more, args, files) == Items(more, args, files + [FileOf(op.kind, w)])
    ensures Redirs([op, w] + more, files) == Redirs(more, files + [FileOf(op.kind, w)])
  {
    var ts := [op, w] + more;
    assert ts[1..][0] == w && ts[2..] == more;
  }

  lemma {:induction false} Regroup(ts: Tokens, k: nat, more: Tokens)
    requires k <= |ts|
    ensures ts[..k] + (ts[k..] + more) == ts + more
    ensures k < |ts| ==> (ts[k..] + more)[0] == ts[k] && (ts[k..] + more)[1..] == ts[k + 1..] + more
  {
  }

  lemma {:induction false} ItemsComplete(ts: Tokens, args: seq<(nat, nat)>, files: seq<File>, more: Tokens)
    requires SimpleOf(ts, args, files) && |args| < MAXARGS
    ensures Items(ts + more, [], []) == Items(more, args, files)
    ensures ts != [] ==> ts[0].kind == 'a' || IsRedir(ts[0].kind)
    decreases |ts|
  {
    hide Items, FileOf;
    var n, a, f := |ts|, |args|, |files|;
    if ts == [] {
      assert ts + more == more;
    } else if f > 0 && EndsInFile(ts, files[f - 1]) && SimpleOf(ts[..n - 2], args, files[..f - 1]) {
      ItemsComplete(ts[..n - 2], args, files[..f - 1], ts[n - 2..] + more);
      FileStep(ts[n - 2], ts[n - 1], more, args, files[..f - 1]);
      Regroup(ts, n - 2, more);
      assert ts[n - 2..] == [ts[n - 2], ts[n - 1]] && files[..f - 1] + [files[f - 1]] == files;
    } else {
      ItemsComplete(ts[..n - 1], args[..a - 1], files, ts[n - 1..] + more);
      ItemsWord(ts[n - 1], more, args[..a - 1], files);
      Regroup(ts, n - 1, more);
      assert ts[n - 1..] == [ts[n - 1]] && args[..a - 1] + [args[a - 1]] == args;
    }
  }

  /** A block's own tokens parsed, the rest are redirections and what follows. */
  lemma {:induction false} BlockComplete(ts: Tokens, c: Cmd, more: Tokens) returns (d: Cmd, files: seq<File>)
    requires BlockOf(ts, c)
    ensures c == Wrap(d, files) && BlockParse(ts + more) == Wrapped(d, Redirs(more, files)) && Head(ts + more) == '('
    decreases |ts|, 0
  {
    hide Redirs, FileOf, LineParse;
    var n := |ts|;
    if c.Redir? && EndsInFile(ts, c.file) && BlockOf(ts[..n - 2], c.cmd) {
      hide BlockParse;
      Regroup(ts, n - 2, more);
      var fs;
      d, fs := BlockComplete(ts[..n - 2], c.cmd, ts[n - 2..] + more);
      files := fs + [c.file];
      assert files[..|fs|] == fs && ts[n - 2..] == [ts[n - 2], ts[n - 1]];
      FileStep(ts[n - 2], ts[n - 1], more, [], fs);
    } else {
      d, files := c, [];
      var body, more' := ts[1..n - 1], [ts[n - 1]] + more;
      LineComplete(body, c, more');
      assert (ts + more)[1..] == body + more' && more'[1..] == more;
    }
  }

  lemma {:induction false} ExecComplete(ts: Tokens, c: Cmd, more: Tokens)
    requires ExecOf(ts, c) && (more == [] || EndsExec(more[0].kind))
    ensures ExecParse(ts + more) == Some(Parse(c, more))
    decreases |ts|, 1
  {
    if Inner(c).Exec? && |Inner(c).args| < MAXARGS && SimpleOf(ts, Inner(c).args, Files(c)) {
      ItemsComplete(ts, Inner(c).args, Files(c), more);
      InnerWrap(c);
      assert ts == [] ==> ts + more == more;
    } else {
      var d, files := BlockComplete(ts, c, more);
    }
  }

  lemma {:induction false} PipeComplete(ts: Tokens, c: Cmd, more: Tokens)
    requires PipeOf(ts, c) && Head(more) in ['\0', ')', '&', ';'] && (more != [] ==> more[0].kind != '\0')
    ensures PipeParse(ts + more) == Some(Parse(c, more))
    decreases |ts|, 3
  {
    hide ExecParse;
    if ExecOf(ts, c) {
      ExecComplete(ts, c, more);
    } else {
      var k: nat :| PipeAt(ts, c, k);
      Regroup(ts, k, more);
      ExecComplete(ts[..k], c.left, ts[k..] + more);
      PipeComplete(ts[k + 1..], c.right, more);
    }
  }

  lemma {:induction false} JobComplete(ts: Tokens, c: Cmd, more: Tokens)
    requires JobOf(ts, c) && Head(more) in ['\0', ')', '&', ';'] && (more != [] ==> more[0].kind != '\0')
    ensures PipeParse(ts + more).Some? && Amps(PipeParse(ts + more).value) == Amps(Parse(c, more))
    decreases |ts|, 4
  {
    if PipeOf(ts, c) {
      PipeComplete(ts, c, more);
    } else {
      var n := |ts| - 1;
      Regroup(ts, n, more);
      JobComplete(ts[..n], c.cmd, ts[n..] + more);
      assert ts[n + 1..] + more == more;
    }
  }

  /** Every line of the grammar is accepted, with its tree, whatever follows that
      cannot continue it. */
  lemma {:induction false} LineComplete(ts: Tokens, c: Cmd, more: Tokens)
    requires LineOf(ts, c) && (more == [] || more[0].kind == ')')
    ensures LineParse(ts + more) == Some(Parse(c, more))
    decreases |ts|, 6
  {
    hide PipeParse;
    if JobOf(ts, c) {
      JobComplete(ts, c, more);
    } else {
      var k: nat :| ListAt(ts, c, k);
      Regroup(ts, k, more);
      JobComplete(ts[..k], c.left, ts[k..] + more);
      LineComplete(ts[k + 1..], c.right, more);
    }
  }

  /** The parser decides the grammar, and the grammar gives each line one tree. */
  lemma {:induction false} ParserExact(ts: Tokens, c: Cmd)
    ensures LineParse(ts) == Some(Parse(c, [])) <==> LineOf(ts, c)
  {
    assert ts + [] == ts;
    if LineParse(ts) == Some(Parse(c, [])) {
      LineSound(ts);
      assert Used(ts, []) == ts;
    }
    if LineOf(ts, c) {
      LineComplete(ts, c, []);
    }
  }

  lemma {:induction false} Unambiguous(ts: Tokens, c: Cmd, d: Cmd)
    requires LineOf(ts, c) && LineOf(ts, d)
    ensures c == d
  {
    ParserExact(ts, c);
    ParserExact(ts, d);
  }
}
