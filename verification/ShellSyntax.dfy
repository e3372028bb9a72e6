/**
 What lines the shell accepts (user/sh.c), and what they mean: concrete syntax trees, how they are written,
 and the command that each stands for.  The parser accepts exactly the lines that are written so.
 */
module ShellSyntax {
  import opened ShellGrammar
  import opened ShellParser

  // ---------- Syntax trees ----------

  /** A word of a simple command and the redirections behind it. */
  datatype Part = Part(word: string, files: Files)

  datatype Tree =
    | Words(first: Files, parts: seq<Part>)  // redirections may come before, between and behind the words
    | Paren(inner: Tree, files: Files)
    | Piped(left: Tree, right: Tree)
    | Amped(inner: Tree)
    | Listed(left: Tree, right: Tree)

  /** A tree that may stand at a level of the grammar: lists and pipelines lean to the right, and a simple
      command has at most nine words. */
  predicate Fits(t: Tree, at: Level) {
    match t
    case Words(_, parts) => |parts| < MAXARGS
    case Paren(inner, _) => Fits(inner, AtLine)
    case Piped(l, r) => !at.AtSimple? && Fits(l, AtSimple) && Fits(r, AtPipe)
    case Amped(inner) => (at.AtLine? || at.AtBacks?) && Fits(inner, AtBacks)
    case Listed(l, r) => at.AtLine? && Fits(l, AtBacks) && Fits(r, AtLine)
  }

  function PartTokens(parts: seq<Part>): seq<Token> {
    if parts == [] then [] else [Name(parts[0].word)] + PrintFiles(parts[0].files) + PartTokens(parts[1..])
  }

  function PartWords(parts: seq<Part>): seq<string> {
    if parts == [] then [] else [parts[0].word] + PartWords(parts[1..])
  }

  function PartFiles(parts: seq<Part>): Files {
    if parts == [] then [] else parts[0].files + PartFiles(parts[1..])
  }

  function Written(t: Tree): seq<Token> {
    match t
    case Words(first, parts) => PrintFiles(first) + PartTokens(parts)
    case Paren(inner, files) => [LPar] + Written(inner) + [RPar] + PrintFiles(files)
    case Piped(l, r) => Written(l) + [Bar] + Written(r)
    case Amped(inner) => Written(inner) + [Amp]
    case Listed(l, r) => Written(l) + [Semi] + Written(r)
  }

  /** Redirections apply from left to right, the first innermost. */
  function Meaning(t: Tree): Command {
    match t
    case Words(first, parts) => Wrap(Exec(PartWords(parts)), first + PartFiles(parts))
    case Paren(inner, files) => Wrap(Meaning(inner), files)
    case Piped(l, r) => PipeTo(Meaning(l), Meaning(r))
    case Amped(inner) => Back(Meaning(inner))
    case Listed(l, r) => Then(Meaning(l), Meaning(r))
  }

  /** The tokens ts are a line that stands for the command c. */
  ghost predicate Derives(t: Tree, ts: seq<Token>, c: Command) {
    Fits(t, AtLine) && Written(t) == ts && Meaning(t) == c
  }

  // ---------- What is written is accepted ----------

  predicate NoAngle(ts: seq<Token>) { ts == [] || !ts[0].Angle? }

  lemma PartStep(parts: seq<Part>)
    requires parts != []
    ensures PartTokens(parts) == [Name(parts[0].word)] + PrintFiles(parts[0].files) + PartTokens(parts[1..])
    ensures PartWords(parts) == [parts[0].word] + PartWords(parts[1..])
    ensures PartFiles(parts) == parts[0].files + PartFiles(parts[1..])
  {
  }

  lemma PartFirst(parts: seq<Part>, rest: seq<Token>)
    requires Stops(rest)
    ensures NoAngle(PartTokens(parts) + rest) && (parts != [] ==> PartTokens(parts) != [] && PartTokens(parts)[0].Name?)
  {
    if parts != [] {
      PartStep(parts);
    }
  }

  lemma {:induction false} ArgsRead(parts: seq<Part>, argv: seq<string>, files: Files, rest: seq<Token>)
    requires Stops(rest) && |argv| + |parts| < MAXARGS
    ensures Args(PartTokens(parts) + rest, argv, files)
            == Ok(Wrap(Exec(argv + PartWords(parts)), files + PartFiles(parts)), rest)
    decreases |parts|
  {
    hide Args, Redirs, Wrap, PartTokens, PartWords, PartFiles, PrintFiles;
    if parts == [] {
      NoParts(parts);
      assert PartTokens(parts) + rest == rest && argv + PartWords(parts) == argv && files + PartFiles(parts) == files;
      ArgsEnd(rest, argv, files);
    } else {
      var p, more := parts[0], PartTokens(parts[1..]) + rest;
      PartStep(parts);
      PartFirst(parts[1..], rest);
      RedirsUndo(p.files, more);
      var ts := PartTokens(parts) + rest;
      assert ts == [Name(p.word)] + (PrintFiles(p.files) + more);
      ArgsStep(ts, PrintFiles(p.files) + more, argv, files);
      ArgsRead(parts[1..], argv + [p.word], files + p.files, rest);
      assert argv + [p.word] + PartWords(parts[1..]) == argv + PartWords(parts);
      assert files + p.files + PartFiles(parts[1..]) == files + PartFiles(parts);
    }
  }

  lemma NoParts(parts: seq<Part>)
    requires parts == []
    ensures PartTokens(parts) == [] && PartWords(parts) == [] && PartFiles(parts) == []
  {
  }

  lemma WordsRead(first: Files, parts: seq<Part>, rest: seq<Token>)
    requires Stops(rest) && |parts| < MAXARGS
    ensures Simple(PrintFiles(first) + PartTokens(parts) + rest) == Ok(Meaning(Words(first, parts)), rest)
  {
    hide Args, Redirs, Wrap, PartTokens, PartWords, PartFiles, PrintFiles, Block;
    var more := PartTokens(parts) + rest;
    var ts := PrintFiles(first) + PartTokens(parts) + rest;
    assert ts == PrintFiles(first) + more;
    PartFirst(parts, rest);
    NoParts([]);
    if parts == [] {
      NoParts(parts);
    }
    FilesFirst(first);
    RedirsUndo(first, more);
    ArgsRead(parts, [], first, rest);
    assert [] + PartWords(parts) == PartWords(parts);
  }

  /** Every level of the grammar reads a tree of that level. */
  lemma {:induction false} TreeRead(t: Tree, at: Level, rest: seq<Token>)
    requires Fits(t, at) && Stops(rest)
    ensures at.AtSimple? ==> Simple(Written(t) + rest) == Ok(Meaning(t), rest)
    ensures at.AtPipe? && NotBar(rest) ==> Pipeline(Written(t) + rest) == Ok(Meaning(t), rest)
    ensures at.AtBacks? && NotBar(rest) ==>
              var r := Pipeline(Written(t) + rest); r.Ok? && Backs(r.cmd, r.rest) == Backs(Meaning(t), rest)
    ensures at.AtLine? && Ends(rest) ==> Line(Written(t) + rest) == Ok(Meaning(t), rest)
    decreases t, match at case AtLine => 3 case AtBacks => 2 case AtPipe => 1 case AtSimple => 0
  {
    hide Simple, Pipeline, Backs, Line, Wrap, PrintFiles, PartTokens;
    var ts := Written(t) + rest;
    match at {
      case AtSimple =>
        if t.Words? {
          WordsRead(t.first, t.parts, rest);
        } else {
          var after := [RPar] + (PrintFiles(t.files) + rest);
          TreeRead(t.inner, AtLine, after);
          BlockUndo(Meaning(t.inner), Written(t.inner), t.files, rest);
        }
      case AtPipe =>
        if NotBar(rest) {
          if t.Piped? {
            var more := Written(t.right) + rest;
            Regroup(Written(t.left), Bar, Written(t.right), rest);
            TreeRead(t.left, AtSimple, [Bar] + more);
            TreeRead(t.right, AtPipe, rest);
            PipelineStep(ts, Meaning(t.left), more);
          } else {
            TreeRead(t, AtSimple, rest);
            PipelineEnd(ts, Meaning(t), rest);
          }
        }
      case AtBacks =>
        if NotBar(rest) {
          if t.Amped? {
            assert ts == Written(t.inner) + ([Amp] + rest);
            TreeRead(t.inner, AtBacks, [Amp] + rest);
            BacksStep(Meaning(t.inner), rest);
          } else {
            TreeRead(t, AtPipe, rest);
          }
        }
      case AtLine =>
        if Ends(rest) {
          if t.Listed? {
            var more := Written(t.right) + rest;
            Regroup(Written(t.left), Semi, Written(t.right), rest);
            TreeRead(t.left, AtBacks, [Semi] + more);
            BacksEnd(Meaning(t.left), [Semi] + more);
            TreeRead(t.right, AtLine, rest);
            LineStep(ts, Meaning(t.left), more);
          } else {
            TreeRead(t, AtBacks, rest);
            BacksEnd(Meaning(t), rest);
            LineEnd(ts, Meaning(t), rest);
          }
        }
    }
  }

  // ---------- What is accepted is written ----------

  lemma {:induction false} RedirsSound(ts: seq<Token>)
    requires Redirs(ts).Found?
    ensures ts == PrintFiles(Redirs(ts).files) + Redirs(ts).rest && NoAngle(Redirs(ts).rest)
    decreases |ts|
  {
    if ts != [] && ts[0].Angle? {
      RedirsSound(ts[2..]);
      var r := Redirs(ts);
      assert r.files[1..] == Redirs(ts[2..]).files;
      PrintFilesStep(r.files);
      hide Redirs, PrintFiles;
      assert ts == [ts[0], ts[1]] + ts[2..];
    }
  }

  lemma {:induction false} ArgsSound(ts: seq<Token>, argv: seq<string>, files: Files) returns (parts: seq<Part>)
    requires Args(ts, argv, files).Ok? && |argv| < MAXARGS
    ensures var r := Args(ts, argv, files);
            && ts == PartTokens(parts) + r.rest && |argv| + |parts| < MAXARGS && Stops(r.rest)
            && r.cmd == Wrap(Exec(argv + PartWords(parts)), files + PartFiles(parts))
    decreases |ts|
  {
    ArgsCases(ts, argv, files);
    hide Args, Wrap, Redirs, PartTokens, PartWords, PartFiles, PrintFiles;
    if Stops(ts) {
      parts := [];
      NoParts(parts);
      assert argv + [] == argv && files + [] == files;
    } else {
      var r := Redirs(ts[1..]);
      RedirsSound(ts[1..]);
      var more := ArgsSound(r.rest, argv + [ts[0].word], files + r.files);
      parts := [Part(ts[0].word, r.files)] + more;
      assert parts[1..] == more;
      PartStep(parts);
      assert argv + [ts[0].word] + PartWords(more) == argv + PartWords(parts);
      assert files + r.files + PartFiles(more) == files + PartFiles(parts);
      var rest := Args(ts, argv, files).rest;
      assert ts == [ts[0]] + (PrintFiles(r.files) + (PartTokens(more) + rest));
      assert PartTokens(parts) + rest == [ts[0]] + (PrintFiles(r.files) + (PartTokens(more) + rest));
    }
  }

  lemma {:induction false} SimpleSound(ts: seq<Token>) returns (t: Tree)
    requires Simple(ts).Ok?
    ensures ts == Written(t) + Simple(ts).rest && Meaning(t) == Simple(ts).cmd && Fits(t, AtSimple)
    decreases |ts|, 0
  {
    hide Wrap, Redirs, Args, Line, PrintFiles, PartTokens, PartWords, PartFiles;
    if ts != [] && ts[0].LPar? {
      var inner := LineSound(ts[1..]);
      var rest := Line(ts[1..]).rest;
      RedirsSound(rest[1..]);
      t := Paren(inner, Redirs(rest[1..]).files);
      assert ts == [LPar] + ts[1..] && rest == [RPar] + rest[1..];
    } else {
      RedirsSound(ts);
      var parts := ArgsSound(Redirs(ts).rest, [], Redirs(ts).files);
      t := Words(Redirs(ts).files, parts);
      assert [] + PartWords(parts) == PartWords(parts);
    }
  }

  lemma {:induction false} PipelineSound(ts: seq<Token>) returns (t: Tree)
    requires Pipeline(ts).Ok?
    ensures ts == Written(t) + Pipeline(ts).rest && Meaning(t) == Pipeline(ts).cmd && Fits(t, AtPipe)
    decreases |ts|, 1
  {
    hide Simple, PrintFiles, PartTokens, Wrap;
    t := SimpleSound(ts);
    SimpleFits(t);
    var rest := Simple(ts).rest;
    if rest != [] && rest[0].Bar? {
      var right := PipelineSound(rest[1..]);
      assert rest == [Bar] + rest[1..];
      t := Piped(t, right);
    }
  }

  lemma SimpleFits(t: Tree)
    ensures Fits(t, AtSimple) ==> Fits(t, AtPipe)
    ensures Fits(t, AtPipe) ==> Fits(t, AtBacks)
    ensures Fits(t, AtBacks) ==> Fits(t, AtLine)
  {
  }

  lemma {:induction false} BacksSound(c: Command, ts: seq<Token>, t: Tree) returns (t': Tree)
    requires Meaning(t) == c && Fits(t, AtBacks)
    ensures Written(t) + ts == Written(t') + Backs(c, ts).1 && Meaning(t') == Backs(c, ts).0 && Fits(t', AtBacks)
    decreases |ts|
  {
    hide PrintFiles, PartTokens, Wrap, Backs;
    if ts != [] && ts[0].Amp? {
      assert ts == [Amp] + ts[1..];
      BacksStep(c, ts[1..]);
      assert Written(t) + ts == Written(Amped(t)) + ts[1..];
      t' := BacksSound(Back(c), ts[1..], Amped(t));
    } else {
      BacksEnd(c, ts);
      t' := t;
    }
  }

  lemma {:induction false} LineSound(ts: seq<Token>) returns (t: Tree)
    requires Line(ts).Ok?
    ensures ts == Written(t) + Line(ts).rest && Meaning(t) == Line(ts).cmd && Fits(t, AtLine)
    decreases |ts|, 2
  {
    hide Pipeline, Backs, PrintFiles, PartTokens, Wrap;
    t := PipelineSound(ts);
    SimpleFits(t);
    t := BacksSound(Pipeline(ts).cmd, Pipeline(ts).rest, t);
    SimpleFits(t);
    var rest := Backs(Pipeline(ts).cmd, Pipeline(ts).rest).1;
    if rest != [] && rest[0].Semi? {
      var right := LineSound(rest[1..]);
      assert rest == [Semi] + rest[1..];
      t := Listed(t, right);
    }
  }

  /** The parser accepts exactly the lines that a syntax tree is written as, and finds what the tree means. */
  lemma ParseIffDerives(ts: seq<Token>, c: Command)
    ensures Parse(ts) == Ok(c, []) <==> exists t :: Derives(t, ts, c)
  {
    if Parse(ts) == Ok(c, []) {
      var t := LineSound(ts);
      assert Written(t) + [] == Written(t);
      assert Derives(t, ts, c);
    }
    if t :| Derives(t, ts, c) {
      TreeRead(t, AtLine, []);
      assert Written(t) + [] == Written(t);
    }
  }

  // ---------- Spelling ----------

  predicate Spaces(gap: string) { forall i | 0 <= i < |gap| :: IsSpace(gap[i]) }

  /** Two tokens that would be read as one if nothing were between them, or as two others. */
  predicate RunTogether(t: Token, u: Token) {
    (t.Name? && u.Name?) || (t == Angle(Out) && (u == Angle(Out) || u == Angle(Append)))
  }

  /** Spaces before, between and behind the tokens, wherever they are needed. */
  predicate Legal(ts: seq<Token>, gaps: seq<string>) {
    && |gaps| == |ts| + 1 && PlainTokens(ts) && (forall k | 0 <= k < |gaps| :: Spaces(gaps[k]))
    && forall k | 0 <= k < |ts| - 1 :: RunTogether(ts[k], ts[k + 1]) ==> gaps[k + 1] != ""
  }

  function Spell(ts: seq<Token>, gaps: seq<string>): string
    requires |gaps| == |ts| + 1
  {
    if ts == [] then gaps[0] else gaps[0] + TextOf(ts[0]) + Spell(ts[1..], gaps[1..])
  }

  lemma {:induction false} SkipGap(s: string, i: nat, j: nat)
    requires i <= j <= |s| && (forall k | i <= k < j :: IsSpace(s[k])) && (j < |s| ==> !IsSpace(s[j]))
    ensures Skip(s, i) == j
    decreases j - i
  {
    if i < j {
      SkipGap(s, i + 1, j);
    }
  }

  lemma {:induction false} WordStops(s: string, i: nat, j: nat)
    requires i <= j <= |s| && (forall k | i <= k < j :: IsPlain(s[k])) && (j < |s| ==> IsSpace(s[j]) || IsSymbol(s[j]))
    ensures WordEnd(s, i) == j
    decreases j - i
  {
    if i < j {
      WordStops(s, i + 1, j);
    }
  }

  /** A token is read off the line if what follows does not run together with it. */
  lemma ReadToken(s: string, i: nat, t: Token)
    requires PlainToken(t) && i + |TextOf(t)| <= |s| && s[i..i + |TextOf(t)|] == TextOf(t)
    requires var j := i + |TextOf(t)|;
             j < |s| ==> (t.Name? ==> IsSpace(s[j]) || IsSymbol(s[j])) && (t == Angle(Out) ==> s[j] != '>')
    ensures i < |s| && !IsSpace(s[i]) && TokenAt(s, i) == (t, i + |TextOf(t)|)
  {
    var w := TextOf(t);
    assert forall k | 0 <= k < |w| :: s[i + k] == s[i..i + |w|][k] == w[k];
    assert s[i] == w[0];
    if t.Name? {
      forall k | i <= k < i + |w| ensures IsPlain(s[k]) {
        assert s[k] == w[k - i];
      }
      WordStops(s, i, i + |w|);
    } else if t == Angle(Append) {
      assert s[i + 1] == w[1];
    }
  }

  /** The first character behind a token. */
  lemma NextChar(ts: seq<Token>, gaps: seq<string>)
    requires Legal(ts, gaps) && ts != []
    ensures var rest := Spell(ts[1..], gaps[1..]);
            rest != "" ==>
              && (ts[0].Name? ==> IsSpace(rest[0]) || IsSymbol(rest[0]))
              && (ts[0] == Angle(Out) ==> rest[0] != '>')
  {
    var rest := Spell(ts[1..], gaps[1..]);
    if gaps[1] != "" {
      assert rest[0] == gaps[1][0];
    } else if |ts| > 1 {
      assert PlainToken(ts[1]) && !RunTogether(ts[0], ts[1]);
      assert rest == TextOf(ts[1]) + Spell(ts[1..][1..], gaps[1..][1..]);
      assert rest[0] == TextOf(ts[1])[0];
      if ts[1].Name? {
        assert IsPlain(ts[1].word[0]);
      }
    }
  }

  lemma LegalRest(ts: seq<Token>, gaps: seq<string>)
    requires Legal(ts, gaps) && ts != []
    ensures Legal(ts[1..], gaps[1..])
  {
  }

  lemma SpellStep(ts: seq<Token>, gaps: seq<string>)
    requires |gaps| == |ts| + 1
    ensures Spell(ts, gaps) == if ts == [] then gaps[0] else gaps[0] + TextOf(ts[0]) + Spell(ts[1..], gaps[1..])
  {
  }

  /** Behind gap and token comes the rest. */
  lemma ThreePieces(s: string, i: nat, gap: string, w: string, rest: string)
    requires i <= |s| && s[i..] == gap + w + rest
    ensures var j := i + |gap|;
            && j + |w| <= |s| && s[j..j + |w|] == w && s[j + |w|..] == rest
            && (forall k | i <= k < j :: s[k] == gap[k - i])
  {
    var t := gap + w + rest;
    assert |s| - i == |t|;
    assert forall k | 0 <= k < |t| :: s[i + k] == t[k];
    assert forall k | 0 <= k < |w| :: t[|gap| + k] == w[k];
    assert forall k | 0 <= k < |rest| :: t[|gap| + |w| + k] == rest[k];
    forall k | i <= k < i + |gap| ensures s[k] == gap[k - i] {
      assert s[i + (k - i)] == t[k - i];
    }
  }

  /** However it is spaced, a line is read as the tokens it spells. */
  lemma {:induction false} LexSpell(s: string, i: nat, ts: seq<Token>, gaps: seq<string>)
    requires i <= |s| && Legal(ts, gaps) && s[i..] == Spell(ts, gaps)
    ensures Tokens(s, i) == ts
    decreases |ts|
  {
    hide Tokens, Skip, TokenAt, WordEnd, Spell, TextOf;
    SpellStep(ts, gaps);
    TokensStep(s, i);
    if ts == [] {
      assert forall k | i <= k < |s| :: s[k] == gaps[0][k - i];
      SkipGap(s, i, |s|);
    } else {
      var w, rest := TextOf(ts[0]), Spell(ts[1..], gaps[1..]);
      var j := i + |gaps[0]|;
      ThreePieces(s, i, gaps[0], w, rest);
      NextChar(ts, gaps);
      assert j + |w| < |s| ==> s[j + |w|] == rest[0];
      ReadToken(s, j, ts[0]);
      SkipGap(s, i, j);
      LegalRest(ts, gaps);
      LexSpell(s, j + |w|, ts[1..], gaps[1..]);
      assert ts == [ts[0]] + ts[1..];
    }
  }

  lemma {:induction false} SkipsSpaces(s: string, i: nat)
    requires i <= |s|
    ensures Spaces(s[i..Skip(s, i)])
    decreases |s| - i
  {
    if i < |s| && IsSpace(s[i]) {
      SkipsSpaces(s, i + 1);
      assert s[i..Skip(s, i)] == [s[i]] + s[i + 1..Skip(s, i)];
    }
  }

  /** The token read at i is the text there. */
  lemma TokenIsText(s: string, i: nat)
    requires i < |s| && !IsSpace(s[i]) && forall k | 0 <= k < |s| :: s[k] != NUL
    ensures var (t, j) := TokenAt(s, i);
            && PlainToken(t) && s[i..j] == TextOf(t)
            && (j < |s| && t.Name? ==> IsSpace(s[j]) || IsSymbol(s[j])) && (j < |s| && t == Angle(Out) ==> s[j] != '>')
  {
    var j := TokenAt(s, i).1;
    if !IsSymbol(s[i]) {
      assert TokenAt(s, i).0 == Name(s[i..j]);
      forall k | 0 <= k < j - i ensures IsPlain(s[i..j][k]) {
        assert s[i..j][k] == s[i + k];
      }
    }
  }

  /** Every line without zeros is a legal spelling of its tokens. */
  lemma {:induction false} SpellLex(s: string, i: nat) returns (gaps: seq<string>)
    requires i <= |s| && forall k | 0 <= k < |s| :: s[k] != NUL
    ensures Legal(Tokens(s, i), gaps) && s[i..] == Spell(Tokens(s, i), gaps)
    decreases |s| - i
  {
    hide Tokens, TokenAt, Spell, TextOf;
    TokensStep(s, i);
    SkipsSpaces(s, i);
    var j := Skip(s, i);
    if j >= |s| {
      gaps := [s[i..]];
      SpellStep([], gaps);
      assert s[i..j] == s[i..];
    } else {
      var (t, e) := TokenAt(s, j);
      TokenIsText(s, j);
      var more := SpellLex(s, e);
      gaps := [s[i..j]] + more;
      var ts := Tokens(s, i);
      assert ts[1..] == Tokens(s, e) && gaps[1..] == more;
      SpellStep(ts, gaps);
      assert s[i..] == s[i..j] + s[j..e] + s[e..];
      NeedsGap(s, e, t, more);
    }
  }

  /** Where two tokens would run together there is a gap. */
  lemma NeedsGap(s: string, e: nat, t: Token, more: seq<string>)
    requires e <= |s| && Legal(Tokens(s, e), more) && s[e..] == Spell(Tokens(s, e), more)
    requires e < |s| ==> (t.Name? ==> IsSpace(s[e]) || IsSymbol(s[e])) && (t == Angle(Out) ==> s[e] != '>')
    ensures Tokens(s, e) != [] && RunTogether(t, Tokens(s, e)[0]) ==> more[0] != ""
  {
    hide Tokens;
    var ts := Tokens(s, e);
    if ts != [] && more[0] == "" {
      assert PlainToken(ts[0]);
      assert s[e..][0] == TextOf(ts[0])[0];
    }
  }

  /** The line spells a syntax tree that means c. */
  ghost predicate Spells(line: string, t: Tree, gaps: seq<string>, c: Command) {
    Derives(t, Written(t), c) && Legal(Written(t), gaps) && line == Spell(Written(t), gaps)
  }

  /** What the shell makes of a line: it reads it as the command c exactly if the line, with spaces wherever
      they are needed and anywhere else, is a syntax tree that means c. */
  lemma LineIffSpelled(line: string, c: Command)
    requires forall k | 0 <= k < |line| :: line[k] != NUL
    ensures Parse(Tokens(line, 0)) == Ok(c, []) <==> exists t, gaps :: Spells(line, t, gaps, c)
  {
    hide Parse, Tokens, Spell, Written;
    assert line[0..] == line;
    ParseIffDerives(Tokens(line, 0), c);
    if Parse(Tokens(line, 0)) == Ok(c, []) {
      var t :| Derives(t, Tokens(line, 0), c);
      var gaps := SpellLex(line, 0);
      assert Spells(line, t, gaps, c);
    }
    if t, gaps :| Spells(line, t, gaps, c) {
      LexSpell(line, 0, Written(t), gaps);
      assert Derives(t, Tokens(line, 0), c);
    }
  }
}
