/**
 The shell's tokenizer, recursive-descent parser and nulterminate (user/sh.c), on the line's buffer.

 The parser reads the line with its terminating zero; words are kept as places in the buffer, and
 nulterminate turns them into strings there.
 */
module ShellParser {
  import opened ShellGrammar

  const NUL := '\0'

  predicate IsSpace(c: char) { c == ' ' || c == '\t' || c == '\r' || c == '\n' || c == '\U{0B}' }

  predicate IsSymbol(c: char) { c == '<' || c == '|' || c == '>' || c == '&' || c == ';' || c == '(' || c == ')' }

  /** A character that can be part of a word. */
  predicate IsPlain(c: char) { !IsSpace(c) && !IsSymbol(c) && c != NUL }

  // ---------- Tokens of a line ----------

  function Skip(s: string, i: nat): (j: nat)
    ensures i <= j && (i <= |s| ==> j <= |s|) && (j < |s| ==> !IsSpace(s[j]))
    decreases |s| - i
  {
    if i < |s| && IsSpace(s[i]) then Skip(s, i + 1) else i
  }

  function WordEnd(s: string, i: nat): (j: nat)
    ensures i <= j && (i <= |s| ==> j <= |s|) && (i < |s| && !IsSpace(s[i]) && !IsSymbol(s[i]) ==> i < j)
    ensures j < |s| ==> IsSpace(s[j]) || IsSymbol(s[j])
    ensures forall k | i <= k < j && k < |s| :: !IsSpace(s[k]) && !IsSymbol(s[k])
    decreases |s| - i
  {
    if i < |s| && !IsSpace(s[i]) && !IsSymbol(s[i]) then WordEnd(s, i + 1) else i
  }

  /** The token that starts at i, which is not a space, and the place behind it. */
  function TokenAt(s: string, i: nat): (r: (Token, nat))
    requires i < |s| && !IsSpace(s[i])
    ensures i < r.1 <= |s|
  {
    match s[i]
    case '|' => (Bar, i + 1)
    case '(' => (LPar, i + 1)
    case ')' => (RPar, i + 1)
    case ';' => (Semi, i + 1)
    case '&' => (Amp, i + 1)
    case '<' => (Angle(In), i + 1)
    case '>' => if i + 1 < |s| && s[i + 1] == '>' then (Angle(Append), i + 2) else (Angle(Out), i + 1)
    case _ => (Name(s[i..WordEnd(s, i)]), WordEnd(s, i))
  }

  function Tokens(s: string, i: nat): seq<Token>
    decreases |s| - i
  {
    var j := Skip(s, i);
    if j >= |s| then [] else [TokenAt(s, j).0] + Tokens(s, TokenAt(s, j).1)
  }

  lemma TokensSkip(s: string, i: nat)
    ensures Skip(s, Skip(s, i)) == Skip(s, i) && Tokens(s, Skip(s, i)) == Tokens(s, i)
  {
  }

  lemma TokensStep(s: string, i: nat)
    ensures var j := Skip(s, i);
            if j >= |s| then Tokens(s, i) == [] else Tokens(s, i) == [TokenAt(s, j).0] + Tokens(s, TokenAt(s, j).1)
  {
  }

  // ---------- Printing a command as a line ----------

  predicate PlainWord(w: string) { w != [] && forall i | 0 <= i < |w| :: IsPlain(w[i]) }

  predicate PlainToken(t: Token) { t.Name? ==> PlainWord(t.word) }

  function TextOf(t: Token): string {
    match t
    case Name(w) => w
    case Bar => "|"
    case Amp => "&"
    case Semi => ";"
    case LPar => "("
    case RPar => ")"
    case Angle(In) => "<"
    case Angle(Out) => ">"
    case Angle(Append) => ">>"
  }

  /** Every token with a space behind it. */
  function Render(ts: seq<Token>): string {
    if ts == [] then "" else TextOf(ts[0]) + " " + Render(ts[1..])
  }

  lemma {:induction false} WordEndAt(s: string, i: nat, j: nat)
    requires i <= j < |s| && s[j] == ' ' && forall k | i <= k < j :: IsPlain(s[k])
    ensures WordEnd(s, i) == j
    decreases j - i
  {
    if i < j {
      WordEndAt(s, i + 1, j);
    }
  }

  /** The tokenizer finds the token that is written at i with a space behind it. */
  lemma LexOne(s: string, i: nat, t: Token)
    requires PlainToken(t) && i + |TextOf(t)| < |s| && s[i..i + |TextOf(t)|] == TextOf(t) && s[i + |TextOf(t)|] == ' '
    ensures i < |s| && !IsSpace(s[i]) && TokenAt(s, i) == (t, i + |TextOf(t)|)
  {
    var w := TextOf(t);
    assert forall k | 0 <= k < |w| :: s[i + k] == s[i..i + |w|][k] == w[k];
    assert s[i] == w[0];
    if t.Name? {
      assert forall k | i <= k < i + |w| :: IsPlain(s[k]) by {
        forall k | i <= k < i + |w| ensures IsPlain(s[k]) {
          assert s[k] == w[k - i];
        }
      }
      WordEndAt(s, i, i + |w|);
    } else if t == Angle(Append) {
      assert s[i + 1] == w[1];
    }
  }

  lemma {:induction false} LexRender(s: string, i: nat, ts: seq<Token>)
    requires i <= |s| && s[i..] == Render(ts) && forall k | 0 <= k < |ts| :: PlainToken(ts[k])
    ensures Tokens(s, i) == ts
    decreases |ts|
  {
    hide Tokens, Render, TextOf, PlainToken, Skip, TokenAt, WordEnd;
    RenderStep(ts);
    TokensStep(s, i);
    if ts != [] {
      var w := TextOf(ts[0]);
      Pieces(s, i, w, Render(ts[1..]));
      LexOne(s, i, ts[0]);
      SkipNone(s, i);
      LexRender(s, i + |w| + 1, ts[1..]);
      TokensBehindSpace(s, i + |w|);
      assert ts == [ts[0]] + ts[1..];
    }
  }

  lemma SkipNone(s: string, i: nat)
    requires i < |s| && !IsSpace(s[i])
    ensures Skip(s, i) == i
  {
  }

  lemma RenderStep(ts: seq<Token>)
    ensures Render(ts) == if ts == [] then "" else TextOf(ts[0]) + " " + Render(ts[1..])
  {
  }

  lemma Pieces(s: string, i: nat, w: string, rest: string)
    requires i <= |s| && s[i..] == w + " " + rest
    ensures i + |w| < |s| && s[i..i + |w|] == w && s[i + |w|] == ' ' && s[i + |w| + 1..] == rest
  {
    var t := w + " " + rest;
    assert |s| - i == |t|;
    assert forall k | 0 <= k < |t| :: s[i + k] == t[k];
    assert forall k | 0 <= k < |w| :: t[k] == w[k];
    assert forall k | 0 <= k < |rest| :: t[|w| + 1 + k] == rest[k];
  }

  lemma TokensBehindSpace(s: string, i: nat)
    requires i < |s| && s[i] == ' '
    ensures Tokens(s, i) == Tokens(s, i + 1)
  {
  }

  /** All words of the command are words to the tokenizer. */
  predicate PlainCmd(c: Command) {
    match c
    case Exec(argv) => forall i | 0 <= i < |argv| :: PlainWord(argv[i])
    case Redir(c', _, file) => PlainCmd(c') && PlainWord(file)
    case PipeTo(l, r) => PlainCmd(l) && PlainCmd(r)
    case Then(l, r) => PlainCmd(l) && PlainCmd(r)
    case Back(c') => PlainCmd(c')
  }

  predicate PlainTokens(ts: seq<Token>) { forall k | 0 <= k < |ts| :: PlainToken(ts[k]) }

  lemma {:induction false} WordsPlain(argv: seq<string>)
    requires forall i | 0 <= i < |argv| :: PlainWord(argv[i])
    ensures PlainTokens(PrintWords(argv))
  {
    if argv != [] {
      WordsPlain(argv[1..]);
    }
  }

  lemma {:induction false} FilesPlain(files: Files)
    requires forall i | 0 <= i < |files| :: PlainWord(files[i].1)
    ensures PlainTokens(PrintFiles(files))
  {
    if files != [] {
      FilesPlain(files[1..]);
    }
  }

  lemma {:induction false} OuterPlain(c: Command)
    requires PlainCmd(c)
    ensures PlainCmd(Core(c)) && forall i | 0 <= i < |Outer(c)| :: PlainWord(Outer(c)[i].1)
  {
    if c.Redir? {
      OuterPlain(c.cmd);
    }
  }

  lemma {:induction false} PrintPlain(c: Command, at: Level)
    requires PlainCmd(c)
    ensures PlainTokens(Print(c, at))
    decreases c, Rank(c, at)
  {
    match at {
      case AtLine =>
        if c.Then? { PrintPlain(c.left, AtBacks); PrintPlain(c.right, AtLine); } else { PrintPlain(c, AtBacks); }
      case AtBacks =>
        if c.Back? { PrintPlain(c.cmd, AtBacks); } else { PrintPlain(c, AtPipe); }
      case AtPipe =>
        if c.PipeTo? { PrintPlain(c.left, AtSimple); PrintPlain(c.right, AtPipe); } else { PrintPlain(c, AtSimple); }
      case AtSimple =>
        PrintSimple(c);
        OuterPlain(c);
        FilesPlain(Outer(c));
        if Core(c).Exec? {
          WordsPlain(Core(c).argv);
        } else {
          if c.Redir? { CoreSmaller(c); }
          PrintPlain(Core(c), AtLine);
        }
    }
  }

  /** Parsing the printed form of a command gives the command back, exactly if none of its simple commands
      has more than nine words. */
  lemma PrintedLineParses(c: Command)
    requires PlainCmd(c)
    ensures Parse(Tokens(Render(Print(c, AtLine)), 0)) == Ok(c, []) <==> Short(c)
  {
    var ts := Print(c, AtLine);
    var line := Render(ts);
    PrintPlain(c, AtLine);
    assert line[0..] == line;
    LexRender(line, 0, ts);
    ParseUndoesPrint(c);
  }

  // ---------- Words as places in the buffer ----------

  datatype Span = Span(q: nat, eq: nat)

  /** A word of the line, with a delimiter or the end of the line behind it. */
  predicate SpanOk(s: string, w: Span) {
    && w.q < w.eq <= |s| && (forall i | w.q <= i < w.eq :: IsPlain(s[i]))
    && (w.eq < |s| ==> IsSpace(s[w.eq]) || IsSymbol(s[w.eq]))
  }

  function WordText(s: string, w: Span): string { if w.q <= w.eq <= |s| then s[w.q..w.eq] else "" }

  function WordTexts(s: string, ws: seq<Span>): seq<string> {
    seq(|ws|, i requires 0 <= i < |ws| => WordText(s, ws[i]))
  }

  function FileTexts(s: string, files: FilesOf<Span>): Files {
    seq(|files|, i requires 0 <= i < |files| => (files[i].0, WordText(s, files[i].1)))
  }

  /** The command that a tree of places stands for. */
  function Text(s: string, c: Cmd<Span>): Command {
    match c
    case Exec(argv) => Exec(WordTexts(s, argv))
    case Redir(c', kind, file) => Redir(Text(s, c'), kind, WordText(s, file))
    case PipeTo(l, r) => PipeTo(Text(s, l), Text(s, r))
    case Then(l, r) => Then(Text(s, l), Text(s, r))
    case Back(c') => Back(Text(s, c'))
  }

  predicate SpansOk(s: string, c: Cmd<Span>) {
    match c
    case Exec(argv) => forall i | 0 <= i < |argv| :: SpanOk(s, argv[i])
    case Redir(c', _, file) => SpansOk(s, c') && SpanOk(s, file)
    case PipeTo(l, r) => SpansOk(s, l) && SpansOk(s, r)
    case Then(l, r) => SpansOk(s, l) && SpansOk(s, r)
    case Back(c') => SpansOk(s, c')
  }

  predicate FilesOk(s: string, files: FilesOf<Span>) { forall i | 0 <= i < |files| :: SpanOk(s, files[i].1) }

  lemma {:induction false} TextWrap(s: string, c: Cmd<Span>, files: FilesOf<Span>)
    requires SpansOk(s, c) && FilesOk(s, files)
    ensures Text(s, Wrap(c, files)) == Wrap(Text(s, c), FileTexts(s, files)) && SpansOk(s, Wrap(c, files))
    decreases |files|
  {
    if files != [] {
      TextWrap(s, Redir(c, files[0].0, files[0].1), files[1..]);
      assert FileTexts(s, files)[1..] == FileTexts(s, files[1..]);
    }
  }

  // ---------- The parser ----------

  datatype Result = Good(cmd: Cmd<Span>) | Bad(error: Error)

  /** What gettoken returns for a token. */
  function Code(t: Token): char {
    match t
    case Name(_) => 'a'
    case Angle(Append) => '+'
    case _ => TextOf(t)[0]
  }

  /** The parser did what the grammar says, and stands before the rest of the line. */
  ghost predicate Agrees(p: Parsed, r: Result, s: string, ps: nat) {
    match p
    case Ok(c, rest) => r.Good? && Text(s, r.cmd) == c && SpansOk(s, r.cmd) && Tokens(s, ps) == rest
    case Panic(e) => r == Bad(e)
  }

  /** The next token, if any, and its first character. */
  lemma PeekMeans(s: string, i: nat)
    requires i <= |s| && Skip(s, i) == i
    ensures i == |s| <==> Tokens(s, i) == []
    ensures i < |s| ==>
              var t := Tokens(s, i)[0];
              && (s[i] == '|' <==> t.Bar?) && (s[i] == '&' <==> t.Amp?) && (s[i] == ';' <==> t.Semi?)
              && (s[i] == '(' <==> t.LPar?)
              && (s[i] == ')' <==> t.RPar?) && (s[i] == '<' || s[i] == '>' <==> t.Angle?)
  {
    TokensStep(s, i);
    hide Tokens;
  }

  /** The redirections of ts are those that are done and those at the front of rest. */
  ghost predicate RedirsAfter(ts: seq<Token>, done: Files, rest: seq<Token>) {
    match Redirs(rest)
    case Found(more, rest') => Redirs(ts) == Found(done + more, rest')
    case NoFile => Redirs(ts) == NoFile
  }

  lemma RedirsSame(ts: seq<Token>)
    ensures RedirsAfter(ts, [], ts)
  {
    var r := Redirs(ts);
    hide Redirs;
    if r.Found? {
      assert [] + r.files == r.files;
    }
  }

  lemma RedirsLast(ts: seq<Token>, done: Files, rest: seq<Token>)
    requires RedirsAfter(ts, done, rest) && (rest == [] || !rest[0].Angle?)
    ensures Redirs(ts) == Found(done, rest)
  {
    NoRedirs(rest);
    hide Redirs;
    assert done + [] == done;
  }

  lemma RedirsNext(ts: seq<Token>, done: Files, rest: seq<Token>)
    requires RedirsAfter(ts, done, rest) && rest != [] && rest[0].Angle?
    ensures |rest| == 1 || !rest[1].Name? ==> Redirs(ts) == NoFile
    ensures |rest| > 1 && rest[1].Name? ==> RedirsAfter(ts, done + [(rest[0].kind, rest[1].word)], rest[1..][1..])
  {
    if |rest| > 1 && rest[1].Name? {
      assert rest[1..][1..] == rest[2..];
      var file := (rest[0].kind, rest[1].word);
      var r := Redirs(rest[2..]);
      assert Redirs(rest) == if r.Found? then Found([file] + r.files, r.rest) else NoFile;
      hide Redirs;
      if r.Found? {
        assert done + ([file] + r.files) == done + [file] + r.files;
      }
    }
  }

  lemma FileTextsMore(s: string, files: FilesOf<Span>, file: (Redirection, Span))
    ensures FileTexts(s, files + [file]) == FileTexts(s, files) + [(file.0, WordText(s, file.1))]
  {
  }

  lemma WordTextsMore(s: string, argv: seq<Span>, w: Span)
    ensures WordTexts(s, argv + [w]) == WordTexts(s, argv) + [WordText(s, w)]
  {
  }

  lemma NoFiles(s: string, more: Files)
    ensures FileTexts(s, []) + more == more
  {
  }

  lemma ArgsCases(ts: seq<Token>, argv: seq<string>, files: Files)
    ensures Stops(ts) ==> Args(ts, argv, files) == Ok(Wrap(Exec(argv), files), ts)
    ensures !Stops(ts) && !ts[0].Name? ==> Args(ts, argv, files) == Panic(Syntax)
    ensures !Stops(ts) && ts[0].Name? ==>
              if |argv| + 1 >= MAXARGS then Args(ts, argv, files) == Panic(TooManyArgs)
              else if Redirs(ts[1..]).NoFile? then Args(ts, argv, files) == Panic(MissingFile)
              else Args(ts, argv, files)
                   == Args(Redirs(ts[1..]).rest, argv + [ts[0].word], files + Redirs(ts[1..]).files)
  {
    hide Wrap, Redirs;
  }

  lemma AgreesMissing(r: Result, s: string, ps: nat)
    ensures r == Bad(MissingFile) ==> Agrees(Panic(MissingFile), r, s, ps)
  {
  }

  // ---------- Strings in the buffer ----------

  /** The places behind the words of the tree. */
  ghost function WordEnds(c: Cmd<Span>): set<nat> {
    match c
    case Exec(argv) => set i | 0 <= i < |argv| :: argv[i].eq
    case Redir(c', _, file) => WordEnds(c') + {file.eq}
    case PipeTo(l, r) => WordEnds(l) + WordEnds(r)
    case Then(l, r) => WordEnds(l) + WordEnds(r)
    case Back(c') => WordEnds(c')
  }

  ghost predicate EndsBy(c: Cmd<Span>, n: nat) {
    match c
    case Exec(argv) => forall i | 0 <= i < |argv| :: argv[i].eq <= n
    case Redir(c', _, file) => EndsBy(c', n) && file.eq <= n
    case PipeTo(l, r) => EndsBy(l, n) && EndsBy(r, n)
    case Then(l, r) => EndsBy(l, n) && EndsBy(r, n)
    case Back(c') => EndsBy(c', n)
  }

  /** The C string that starts at i. */
  function CString(b: string, i: nat): string
    decreases |b| - i
  {
    if i < |b| && b[i] != NUL then [b[i]] + CString(b, i + 1) else ""
  }

  /** What a program finds that takes the words of the tree for C strings. */
  function ReadBack(b: string, c: Cmd<Span>): Command {
    match c
    case Exec(argv) => Exec(seq(|argv|, i requires 0 <= i < |argv| => CString(b, argv[i].q)))
    case Redir(c', kind, file) => Redir(ReadBack(b, c'), kind, CString(b, file.q))
    case PipeTo(l, r) => PipeTo(ReadBack(b, l), ReadBack(b, r))
    case Then(l, r) => Then(ReadBack(b, l), ReadBack(b, r))
    case Back(c') => Back(ReadBack(b, c'))
  }

  /** The buffer with zeros at the end of the line and at some places behind words. */
  ghost predicate Zeroed(s: string, b: string, ends: set<nat>) {
    && |b| == |s| + 1 && b[|s|] == NUL && (forall i | 0 <= i < |s| :: b[i] == if i in ends then NUL else s[i])
    && forall i | i in ends && i < |s| :: !IsPlain(s[i])
  }

  lemma {:induction false} StringAt(s: string, b: string, ends: set<nat>, i: nat, w: Span)
    requires Zeroed(s, b, ends) && SpanOk(s, w) && w.eq in ends && w.q <= i <= w.eq
    ensures CString(b, i) == s[i..w.eq]
    decreases w.eq - i
  {
    if i < w.eq {
      assert IsPlain(s[i]);
      StringAt(s, b, ends, i + 1, w);
    }
  }

  /** Zeros behind words do no harm to other words: every word reads back as its text. */
  lemma {:induction false} StringsInPlace(s: string, b: string, c: Cmd<Span>, ends: set<nat>)
    requires SpansOk(s, c) && Zeroed(s, b, ends) && WordEnds(c) <= ends
    ensures ReadBack(b, c) == Text(s, c)
  {
    match c {
      case Exec(argv) =>
        forall i | 0 <= i < |argv| ensures CString(b, argv[i].q) == WordText(s, argv[i]) {
          assert argv[i].eq in WordEnds(c);
          StringAt(s, b, ends, argv[i].q, argv[i]);
        }
      case Redir(c', _, file) =>
        StringsInPlace(s, b, c', ends);
        StringAt(s, b, ends, file.q, file);
      case PipeTo(l, r) =>
        StringsInPlace(s, b, l, ends);
        StringsInPlace(s, b, r, ends);
      case Then(l, r) =>
        StringsInPlace(s, b, l, ends);
        StringsInPlace(s, b, r, ends);
      case Back(c') =>
        StringsInPlace(s, b, c', ends);
    }
  }

  lemma {:induction false} EndsWithin(s: string, c: Cmd<Span>)
    requires SpansOk(s, c)
    ensures EndsBy(c, |s|) && forall i | i in WordEnds(c) && i < |s| :: !IsPlain(s[i])
  {
    match c {
      case Exec(argv) =>
      case Redir(c', _, file) => EndsWithin(s, c');
      case PipeTo(l, r) => EndsWithin(s, l); EndsWithin(s, r);
      case Then(l, r) => EndsWithin(s, l); EndsWithin(s, r);
      case Back(c') => EndsWithin(s, c');
    }
  }

  class Parser {
    const buf: array<char>
    const n: nat               // where the line ends: es
    ghost const s: string      // the line
    var ps: nat

    ghost predicate Valid()
      reads this, buf
    {
      buf.Length == n + 1 && buf[..n] == s && buf[n] == NUL && ps <= n && forall i | 0 <= i < n :: s[i] != NUL
    }

    constructor (line: string)
      requires forall i | 0 <= i < |line| :: line[i] != NUL
      ensures Valid() && s == line && ps == 0 && fresh(buf)
    {
      buf := new char[|line| + 1](i requires 0 <= i <= |line| => if i < |line| then line[i] else NUL);
      n, s, ps := |line|, line, 0;
    }

    /** peek: skip spaces, and look whether the next character is one of toks. */
    method Peek(toks: string) returns (b: bool)
      requires Valid()
      modifies this`ps
      ensures Valid() && ps == Skip(s, old(ps)) && Skip(s, ps) == ps && Tokens(s, ps) == Tokens(s, old(ps))
      ensures b == (ps < n && s[ps] in toks)
    {
      TokensSkip(s, ps);
      while ps < n && IsSpace(buf[ps])
        invariant Valid() && Skip(s, ps) == Skip(s, old(ps))
        decreases n - ps
      {
        ps := ps + 1;
      }
      b := buf[ps] != NUL && buf[ps] in toks;
    }

    /** The switch of gettoken, at a character that is no space. */
    method ScanToken(q: nat) returns (tok: char, eq: nat)
      requires Valid() && q <= n && (q < n ==> !IsSpace(s[q]))
      ensures q == n ==> tok == NUL && eq == n
      ensures q < n ==> eq == TokenAt(s, q).1 && tok == Code(TokenAt(s, q).0)
      ensures q < n && TokenAt(s, q).0.Name? ==>
                SpanOk(s, Span(q, eq)) && TokenAt(s, q).0.word == WordText(s, Span(q, eq))
    {
      tok, eq := buf[q], q;
      if tok == NUL {
      } else if tok == '|' || tok == '(' || tok == ')' || tok == ';' || tok == '&' || tok == '<' {
        eq := eq + 1;
      } else if tok == '>' {
        eq := eq + 1;
        if buf[eq] == '>' {
          tok := '+';
          eq := eq + 1;
        }
      } else {
        tok := 'a';
        while eq < n && !IsSpace(buf[eq]) && !IsSymbol(buf[eq])
          invariant q <= eq <= n && WordEnd(s, eq) == WordEnd(s, q)
        {
          eq := eq + 1;
        }
      }
    }

    /** gettoken: the next token of the line, its place, and the spaces behind it. */
    method GetToken() returns (tok: char, q: nat, eq: nat)
      requires Valid()
      modifies this`ps
      ensures Valid() && old(ps) <= ps && Skip(s, ps) == ps
      ensures Tokens(s, old(ps)) == [] ==> tok == NUL && Tokens(s, ps) == []
      ensures Tokens(s, old(ps)) != [] ==>
                old(ps) < ps && tok == Code(Tokens(s, old(ps))[0]) && Tokens(s, ps) == Tokens(s, old(ps))[1..]
      ensures Tokens(s, old(ps)) != [] && Tokens(s, old(ps))[0].Name? ==>
                SpanOk(s, Span(q, eq)) && Tokens(s, old(ps))[0].word == WordText(s, Span(q, eq))
    {
      hide TokenAt, Code, SpanOk, WordText, IsSpace, Tokens, Skip;
      TokensStep(s, ps);
      var b := Peek("");
      q := ps;
      tok, eq := ScanToken(q);
      ps := eq;
      b := Peek("");
    }

    /** One redirection: an angle and a file name. */
    method ParseRedir() returns (ok: bool, file: (Redirection, Span))
      requires Valid() && Tokens(s, ps) != [] && Tokens(s, ps)[0].Angle?
      modifies this`ps
      ensures Valid() && old(ps) < ps
      ensures var ts := Tokens(s, old(ps)); ok == (|ts| > 1 && ts[1].Name?)
      ensures ok ==>
                var ts := Tokens(s, old(ps));
                && SpanOk(s, file.1) && ts[0].kind == file.0 && ts[1].word == WordText(s, file.1)
                && Tokens(s, ps) == ts[1..][1..]
    {
      hide Tokens, SpanOk, WordText;
      var tok, q, eq := GetToken();
      var tok2;
      tok2, q, eq := GetToken();
      ok := tok2 == 'a';
      file := (if tok == '<' then In else if tok == '>' then Out else Append, Span(q, eq));
    }

    /** parseredirs. */
    method ParseRedirs(files0: FilesOf<Span>) returns (ok: bool, files: FilesOf<Span>)
      requires Valid() && FilesOk(s, files0)
      modifies this`ps
      ensures Valid() && old(ps) <= ps && FilesOk(s, files)
      ensures ok == Redirs(Tokens(s, old(ps))).Found?
      ensures ok ==> FileTexts(s, files) == FileTexts(s, files0) + Redirs(Tokens(s, old(ps))).files
      ensures ok ==> Tokens(s, ps) == Redirs(Tokens(s, old(ps))).rest
    {
      hide Tokens, Redirs, Skip, SpanOk, WordText, FileTexts, RedirsAfter;
      files := files0;
      ghost var ts, done: Files := Tokens(s, ps), [];
      assert FileTexts(s, files0) + done == FileTexts(s, files0);
      RedirsSame(ts);
      while true
        invariant Valid() && old(ps) <= ps && FilesOk(s, files) && FileTexts(s, files) == FileTexts(s, files0) + done
        invariant RedirsAfter(ts, done, Tokens(s, ps))
        decreases n - ps
      {
        var b := Peek("<>");
        PeekMeans(s, ps);
        ghost var ts1 := Tokens(s, ps);
        if !b {
          RedirsLast(ts, done, ts1);
          return true, files;
        }
        var file;
        ok, file := ParseRedir();
        RedirsNext(ts, done, ts1);
        if !ok {
          return;
        }
        FileTextsMore(s, files, file);
        files := files + [file];
        assert FileTexts(s, files0) + done + [(file.0, WordText(s, file.1))]
               == FileTexts(s, files0) + (done + [(file.0, WordText(s, file.1))]);
        done := done + [(file.0, WordText(s, file.1))];
      }
    }

    /** parseexec, but for the block: words and redirections. */
    method ParseArgs() returns (r: Result)
      requires Valid()
      modifies this`ps
      ensures Valid() && old(ps) <= ps
      ensures var found := Redirs(Tokens(s, old(ps)));
              if found.Found? then Agrees(Args(found.rest, [], found.files), r, s, ps) else r == Bad(MissingFile)
    {
      hide Tokens, Redirs, Skip, SpanOk, WordText, Args, Wrap, FileTexts, Redirs;
      var ok, files := ParseRedirs([]);
      ghost var ts := Tokens(s, old(ps));
      if !ok {
        return Bad(MissingFile);
      }
      NoFiles(s, Redirs(ts).files);
      var argv: seq<Span> := [];
      assert WordTexts(s, argv) == [];
      ghost var want := Args(Redirs(ts).rest, [], Redirs(ts).files);
      assert FileTexts(s, files) == Redirs(ts).files;
      while true
        invariant Valid() && old(ps) <= ps && FilesOk(s, files) && (forall i | 0 <= i < |argv| :: SpanOk(s, argv[i]))
        invariant Args(Tokens(s, ps), WordTexts(s, argv), FileTexts(s, files)) == want
        decreases n - ps
      {
        var b := Peek("|)&;");
        PeekMeans(s, ps);
        ghost var ts1 := Tokens(s, ps);
        ArgsCases(ts1, WordTexts(s, argv), FileTexts(s, files));
        if b {
          break;
        }
        var tok, q, eq := GetToken();
        if tok == NUL {
          break;
        }
        if tok != 'a' {
          return Bad(Syntax);
        }
        WordTextsMore(s, argv, Span(q, eq));
        argv := argv + [Span(q, eq)];
        if |argv| >= MAXARGS {
          return Bad(TooManyArgs);
        }
        ok, files := ParseRedirs(files);
        if !ok {
          return Bad(MissingFile);
        }
      }
      ArgsCases(Tokens(s, ps), WordTexts(s, argv), FileTexts(s, files));
      TextWrap(s, Exec(argv), files);
      return Good(Wrap(Exec(argv), files));
    }

    /** parseexec. */
    method ParseExec() returns (r: Result)
      requires Valid()
      modifies this`ps
      ensures Valid() && old(ps) <= ps && Agrees(Simple(Tokens(s, old(ps))), r, s, ps)
      decreases n - ps, 1
    {
      hide Tokens, Redirs, Skip, Args, Wrap, Line, Block, Agrees;
      var b := Peek("(");
      PeekMeans(s, ps);
      if b {
        r := ParseBlock();
      } else {
        r := ParseArgs();
        AgreesMissing(r, s, ps);
      }
    }

    /** parseblock. */
    method ParseBlock() returns (r: Result)
      requires Valid() && Tokens(s, ps) != [] && Tokens(s, ps)[0].LPar?
      modifies this`ps
      ensures Valid() && old(ps) <= ps && Agrees(Block(Tokens(s, old(ps))[1..]), r, s, ps)
      decreases n - ps, 0
    {
      hide Tokens, Redirs, Skip, Wrap, Line, FileTexts;
      var tok, q, eq := GetToken();
      r := ParseLine();
      if r.Bad? {
        return;
      }
      var b := Peek(")");
      PeekMeans(s, ps);
      if !b {
        return Bad(MissingParen);
      }
      tok, q, eq := GetToken();
      ghost var ts := Tokens(s, ps);
      var ok, files := ParseRedirs([]);
      if !ok {
        return Bad(MissingFile);
      }
      NoFiles(s, Redirs(ts).files);
      TextWrap(s, r.cmd, files);
      r := Good(Wrap(r.cmd, files));
    }

    /** parsepipe. */
    method ParsePipe() returns (r: Result)
      requires Valid()
      modifies this`ps
      ensures Valid() && old(ps) <= ps && Agrees(Pipeline(Tokens(s, old(ps))), r, s, ps)
      decreases n - ps, 2
    {
      hide Tokens, Skip, Simple;
      r := ParseExec();
      if r.Bad? {
        return;
      }
      var b := Peek("|");
      PeekMeans(s, ps);
      if b {
        var tok, q, eq := GetToken();
        var r' := ParsePipe();
        r := if r'.Bad? then r' else Good(PipeTo(r.cmd, r'.cmd));
      }
    }

    /** parseline. */
    method ParseLine() returns (r: Result)
      requires Valid()
      modifies this`ps
      ensures Valid() && old(ps) <= ps && Agrees(Line(Tokens(s, old(ps))), r, s, ps)
      decreases n - ps, 3
    {
      hide Tokens, Skip, Pipeline;
      r := ParsePipe();
      if r.Bad? {
        return;
      }
      var c := r.cmd;
      ghost var want := Backs(Text(s, c), Tokens(s, ps));
      while true
        invariant Valid() && old(ps) <= ps && SpansOk(s, c) && Backs(Text(s, c), Tokens(s, ps)) == want
        decreases n - ps
      {
        var b := Peek("&");
        PeekMeans(s, ps);
        if !b {
          break;
        }
        var tok, q, eq := GetToken();
        c := Back(c);
      }
      var b := Peek(";");
      PeekMeans(s, ps);
      if b {
        var tok, q, eq := GetToken();
        r := ParseLine();
        return if r.Bad? then r else Good(Then(c, r.cmd));
      }
      return Good(c);
    }

    /** nulterminate: a zero behind every word of the tree. */
    method NulTerminate(c: Cmd<Span>)
      requires buf.Length == n + 1 && EndsBy(c, n)
      modifies buf
      ensures forall i | 0 <= i <= n :: buf[i] == if i in WordEnds(c) then NUL else old(buf[i])
      decreases c
    {
      match c {
        case Exec(argv) =>
          for i := 0 to |argv|
            invariant forall k | 0 <= k <= n ::
                        buf[k] == if exists j :: 0 <= j < i && argv[j].eq == k then NUL else old(buf[k])
          {
            buf[argv[i].eq] := NUL;
          }
        case Redir(c', _, file) =>
          NulTerminate(c');
          buf[file.eq] := NUL;
        case PipeTo(l, r) =>
          NulTerminate(l);
          NulTerminate(r);
        case Then(l, r) =>
          NulTerminate(l);
          NulTerminate(r);
        case Back(c') =>
          NulTerminate(c');
      }
    }

    /** parsecmd: the command of the line; afterwards every word of it is a string in the buffer. */
    method ParseCmd() returns (r: Result)
      requires Valid() && ps == 0
      modifies this`ps, buf
      ensures match Parse(Tokens(s, 0))
              case Ok(c, _) => r.Good? && Text(s, r.cmd) == c && ReadBack(buf[..], r.cmd) == c
              case Panic(e) => r == Bad(e)
    {
      hide Tokens, Line, Skip, Text, ReadBack;
      r := ParseLine();
      if r.Bad? {
        return;
      }
      var b := Peek("");
      PeekMeans(s, ps);
      if ps != n {
        return Bad(Leftovers);
      }
      EndsWithin(s, r.cmd);
      NulTerminate(r.cmd);
      StringsInPlace(s, buf[..], r.cmd, WordEnds(r.cmd));
    }
  }
}
