/** user/grep.c: the matcher of Kernighan and Pike against the declarative meaning
    of its patterns. Strings are the bytes before the NUL. */
module Grep {

  /** What a pattern is made of: c, c*, and a final $. */
  datatype Item = One(c: char) | Star(c: char) | End

  function Items(re: string): (items: seq<Item>) {
    if re == "" then []
    else if |re| >= 2 && re[1] == '*' then [Star(re[0])] + Items(re[2..])
    else if re == "$" then [End]
    else [One(re[0])] + Items(re[1..])
  }

  /** A dot stands for every character. */
  predicate Fits(c: char, x: char) { c == '.' || c == x }

  predicate AllFit(c: char, text: string, n: nat) {
    n <= |text| && forall k :: 0 <= k < n ==> Fits(c, text[k])
  }

  /** Some prefix of the text is made up as the items say; a star stands for any
      number of fitting characters. */
  ghost predicate Means(items: seq<Item>, text: string) {
    if items == [] then true
    else
      match items[0]
      case One(c) => text != "" && Fits(c, text[0]) && Means(items[1..], text[1..])
      case Star(c) => exists n: nat :: AllFit(c, text, n) && Means(items[1..], text[n..])
      case End => text == "" && Means(items[1..], text)
  }

  /** The pattern matches somewhere, or at the beginning if it starts with ^. */
  ghost predicate Matches(re: string, text: string) {
    if re != "" && re[0] == '^' then Means(Items(re[1..]), text)
    else exists k: nat :: k <= |text| && Means(Items(re), text[k..])
  }

  /** An accepted text stays accepted if more follows, unless the pattern ends in $. */
  lemma {:induction false} MeansLonger(items: seq<Item>, text: string, more: string)
    requires Means(items, text) && End !in items
    ensures Means(items, text + more)
    decreases |items|
  {
    if items != [] {
      assert items[0] in items && forall x :: x in items[1..] ==> x in items;
      match items[0] {
        case One(c) =>
          MeansLonger(items[1..], text[1..], more);
          assert (text + more)[1..] == text[1..] + more;
        case Star(c) =>
          var n: nat :| AllFit(c, text, n) && Means(items[1..], text[n..]);
          MeansLonger(items[1..], text[n..], more);
          assert (text + more)[n..] == text[n..] + more && AllFit(c, text + more, n);
        case End =>
      }
    }
  }

  /** matchhere() */
  method Matchhere(re: string, text: string) returns (b: bool)
    ensures b <==> Means(Items(re), text)
    decreases |re|, 0
  {
    if re == "" {
      return true;
    }
    if |re| >= 2 && re[1] == '*' {
      b := Matchstar(re[0], re[2..], text);
      assert Items(re)[1..] == Items(re[2..]);
      return;
    }
    if re[0] == '$' && |re| == 1 {
      assert re == "$" && Items(re)[1..] == [];
      return text == "";
    }
    assert Items(re)[1..] == Items(re[1..]);
    if text != "" && (re[0] == '.' || re[0] == text[0]) {
      b := Matchhere(re[1..], text[1..]);
      return;
    }
    return false;
  }

  /** matchstar(): trying the shortest run of c first loses no match. */
  method Matchstar(c: char, re: string, text: string) returns (b: bool)
    ensures b <==> exists n: nat :: AllFit(c, text, n) && Means(Items(re), text[n..])
    decreases |re|, 1
  {
    var t := 0;
    while true
      invariant t <= |text| && AllFit(c, text, t)
      invariant forall n: nat :: n < t ==> !Means(Items(re), text[n..])
      decreases |text| - t
    {
      b := Matchhere(re, text[t..]);
      if b {
        return;
      }
      if t == |text| || !(text[t] == c || c == '.') {
        return false;
      }
      t := t + 1;
    }
  }

  /** match() */
  method Match(re: string, text: string) returns (b: bool)
    ensures b <==> Matches(re, text)
  {
    if re != "" && re[0] == '^' {
      b := Matchhere(re[1..], text);
      return;
    }
    var t := 0;
    while true
      invariant t <= |text| && forall k: nat :: k < t ==> !Means(Items(re), text[k..])
      decreases |text| - t
    {
      b := Matchhere(re, text[t..]);
      if b {
        return;
      }
      if t == |text| {
        return false;
      }
      t := t + 1;
    }
  }
}
