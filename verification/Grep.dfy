/**
 The regular-expression matcher of the grep utility (user/grep.c).

 A pattern is read into a list of items with an optional end anchor, and every item denotes a
 language of strings.  The three mutually recursive C routines are proved to decide membership in
 that language.  A C string is the sequence of its characters before the terminating NUL, so the
 tests against NUL are tests for the end of the sequence.
 */
module Grep {

  datatype Item =
    | One(c: char)   // exactly the character c
    | Any            // exactly one character
    | Star(c: char)  // any number of c, or of any characters when c is '.'

  datatype Pattern = Pattern(items: seq<Item>, toEnd: bool)

  /** How the matcher reads a pattern from left to right; a '$' is special only at the very end. */
  function Parse(re: string): Pattern {
    if re == "" then Pattern([], false)
    else if |re| > 1 && re[1] == '*' then Prepend(Star(re[0]), Parse(re[2..]))
    else if re == "$" then Pattern([], true)
    else Prepend(if re[0] == '.' then Any else One(re[0]), Parse(re[1..]))
  }

  function Prepend(item: Item, p: Pattern): Pattern {
    Pattern([item] + p.items, p.toEnd)
  }

  /** How a pattern is written. */
  function Show(p: Pattern): string
    decreases |p.items|
  {
    if p.items == [] then (if p.toEnd then "$" else "")
    else ShowItem(p.items[0]) + Show(Pattern(p.items[1..], p.toEnd))
  }

  function ShowItem(item: Item): string {
    match item
    case One(c) => [c]
    case Any => "."
    case Star(c) => [c, '*']
  }

  /** A pattern that can be told from its text: a character stands for itself unless it is a dot, a dollar
      at the end, or followed by a star. */
  predicate Readable(p: Pattern)
    decreases |p.items|
  {
    p.items == [] ||
    var rest := Pattern(p.items[1..], p.toEnd);
    && Readable(rest)
    && (!p.items[0].Star? ==> !(Show(rest) != "" && Show(rest)[0] == '*'))
    && (p.items[0].One? ==> p.items[0].c != '.' && !(p.items[0].c == '$' && Show(rest) == ""))
  }

  /** Reading a pattern loses nothing: every text is that of the one readable pattern that Parse makes of it. */
  lemma {:induction false} ShowParse(re: string)
    ensures Show(Parse(re)) == re && Readable(Parse(re))
  {
    if re == "" || re == "$" {
    } else if |re| > 1 && re[1] == '*' {
      ShowParse(re[2..]);
      ShowPrepend(Star(re[0]), Parse(re[2..]));
    } else {
      ShowParse(re[1..]);
      ShowPrepend(if re[0] == '.' then Any else One(re[0]), Parse(re[1..]));
    }
  }

  lemma ShowPrepend(item: Item, p: Pattern)
    ensures Show(Prepend(item, p)) == ShowItem(item) + Show(p)
    ensures Pattern(Prepend(item, p).items[1..], p.toEnd) == p && Prepend(item, p).items[0] == item
  {
  }

  lemma {:induction false} ParseShow(p: Pattern)
    requires Readable(p)
    ensures Parse(Show(p)) == p
    decreases |p.items|
  {
    if p.items != [] {
      var rest, re := Pattern(p.items[1..], p.toEnd), Show(p);
      ParseShow(rest);
      assert re[|ShowItem(p.items[0])|..] == Show(rest);
      assert Prepend(p.items[0], rest) == p;
    }
  }

  /** The language of one item. */
  predicate InItem(item: Item, s: string) {
    match item
    case One(c) => s == [c]
    case Any => |s| == 1
    case Star(c) => c == '.' || forall i | 0 <= i < |s| :: s[i] == c
  }

  /** The language of a list of items: the concatenation of the languages of its items. */
  ghost predicate InItems(items: seq<Item>, s: string) {
    if items == [] then s == ""
    else exists k | 0 <= k <= |s| :: InItem(items[0], s[..k]) && InItems(items[1..], s[k..])
  }

  /** A prefix of text that ends at j and is in the language of p. */
  ghost predicate EndsAt(p: Pattern, text: string, j: nat) {
    j <= |text| && (p.toEnd ==> j == |text|) && InItems(p.items, text[..j])
  }

  ghost predicate PrefixIn(p: Pattern, text: string) {
    exists j :: EndsAt(p, text, j)
  }

  /** What grep promises: a substring of text is in the language of re, a prefix after '^'. */
  ghost predicate Matches(re: string, text: string) {
    if re != "" && re[0] == '^' then PrefixIn(Parse(re[1..]), text)
    else exists i | 0 <= i <= |text| :: PrefixIn(Parse(re), text[i..])
  }

  lemma SplitFirst(item: Item, p: Pattern, text: string, j: nat) returns (k: nat)
    requires EndsAt(Prepend(item, p), text, j)
    ensures k <= |text| && InItem(item, text[..k]) && PrefixIn(p, text[k..])
  {
    var s := text[..j];
    assert Prepend(item, p).items[1..] == p.items;
    var n :| 0 <= n <= |s| && InItem(item, s[..n]) && InItems(p.items, s[n..]);
    assert s[..n] == text[..n] && s[n..] == text[n..][..j - n];
    assert EndsAt(p, text[n..], j - n);
    k := n;
  }

  lemma JoinFirst(item: Item, p: Pattern, text: string, k: nat, j: nat)
    requires k <= |text| && InItem(item, text[..k]) && EndsAt(p, text[k..], j)
    ensures PrefixIn(Prepend(item, p), text)
  {
    var s := text[..k + j];
    assert Prepend(item, p).items[1..] == p.items;
    assert s[..k] == text[..k] && s[k..] == text[k..][..j];
    assert EndsAt(Prepend(item, p), text, k + j);
  }

  /** Matching a first item and then the rest of a pattern is matching the whole pattern. */
  lemma PrefixSplit(item: Item, p: Pattern, text: string)
    ensures PrefixIn(Prepend(item, p), text) <==>
            exists k | 0 <= k <= |text| :: InItem(item, text[..k]) && PrefixIn(p, text[k..])
  {
    if PrefixIn(Prepend(item, p), text) {
      var j :| EndsAt(Prepend(item, p), text, j);
      var k := SplitFirst(item, p, text, j);
    }
    if k :| 0 <= k <= |text| && InItem(item, text[..k]) && PrefixIn(p, text[k..]) {
      var j :| EndsAt(p, text[k..], j);
      JoinFirst(item, p, text, k, j);
    }
  }

  method MatchHere(re: string, text: string) returns (found: bool)
    ensures found <==> PrefixIn(Parse(re), text)
    decreases |re|, 0
  {
    if re == "" {
      assert EndsAt(Parse(re), text, 0);
      return true;
    }
    if |re| > 1 && re[1] == '*' {
      found := MatchStar(re[0], re[2..], text);
      return;
    }
    if re == "$" {
      assert text == "" ==> EndsAt(Parse(re), text, 0);
      return text == "";
    }
    var item := if re[0] == '.' then Any else One(re[0]);
    PrefixSplit(item, Parse(re[1..]), text);
    if text != "" && (re[0] == '.' || re[0] == text[0]) {
      found := MatchHere(re[1..], text[1..]);
      assert InItem(item, text[..1]);
      return;
    }
    return false;
  }

  method MatchStar(c: char, re: string, text: string) returns (found: bool)
    ensures found <==> PrefixIn(Prepend(Star(c), Parse(re)), text)
    decreases |re| + 1, 1
  {
    PrefixSplit(Star(c), Parse(re), text);
    var k := 0;
    while true
      invariant 0 <= k <= |text|
      invariant InItem(Star(c), text[..k])
      invariant forall i | 0 <= i < k :: !PrefixIn(Parse(re), text[i..])
      decreases |text| - k
    {
      found := MatchHere(re, text[k..]);
      if found {
        return;
      }
      if k == |text| || !(text[k] == c || c == '.') {
        assert forall i | k < i <= |text| :: k < |text| && text[..i][k] == text[k];
        return;
      }
      k := k + 1;
    }
  }

  /** The whole matcher decides the language, for every pattern and every text. */
  method Match(re: string, text: string) returns (found: bool)
    ensures found <==> Matches(re, text)
  {
    if re != "" && re[0] == '^' {
      found := MatchHere(re[1..], text);
      return;
    }
    var i := 0;
    while true
      invariant 0 <= i <= |text|
      invariant forall h | 0 <= h < i :: !PrefixIn(Parse(re), text[h..])
      decreases |text| - i
    {
      found := MatchHere(re, text[i..]);
      if found || i == |text| {
        return;
      }
      i := i + 1;
    }
  }
}
