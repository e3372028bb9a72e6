/**
 The shell's command language (user/sh.c): tokens, command trees, the grammar that the recursive
 descent implements, and a printer that the grammar undoes.
 */
module ShellGrammar {

  const MAXARGS := 10

  datatype Redirection = In | Out | Append   // <, > and >>

  datatype Token = Name(word: string) | Bar | Amp | Semi | LPar | RPar | Angle(kind: Redirection)

  /** A command tree; W is what stands for a word. */
  datatype Cmd<W> =
    | Exec(argv: seq<W>)
    | Redir(cmd: Cmd<W>, kind: Redirection, file: W)
    | PipeTo(left: Cmd<W>, right: Cmd<W>)
    | Then(left: Cmd<W>, right: Cmd<W>)
    | Back(cmd: Cmd<W>)

  type Command = Cmd<string>

  datatype Error = Syntax | MissingFile | TooManyArgs | MissingParen | Leftovers

  /** A command and the tokens after it, or the panic that the input leads to. */
  datatype Parsed = Ok(cmd: Command, rest: seq<Token>) | Panic(error: Error)

  type FilesOf<W> = seq<(Redirection, W)>
  type Files = FilesOf<string>

  datatype Found = Found(files: Files, rest: seq<Token>) | NoFile

  // ---------- The grammar ----------

  /** parseredirs: redirections, one after the other. */
  function Redirs(ts: seq<Token>): (r: Found)
    ensures r.Found? ==> |r.rest| <= |ts|
  {
    if ts == [] || !ts[0].Angle? then Found([], ts)
    else if |ts| == 1 || !ts[1].Name? then NoFile
    else
      match Redirs(ts[2..])
      case Found(files, rest) => Found([(ts[0].kind, ts[1].word)] + files, rest)
      case NoFile => NoFile
  }

  /** The command with the redirections around it, the first innermost. */
  function Wrap<W>(c: Cmd<W>, files: FilesOf<W>): Cmd<W>
    decreases |files|
  {
    if files == [] then c else Wrap(Redir(c, files[0].0, files[0].1), files[1..])
  }

  /** Tokens that end a simple command. */
  predicate Stops(ts: seq<Token>) {
    ts == [] || ts[0].Bar? || ts[0].RPar? || ts[0].Amp? || ts[0].Semi?
  }

  /** The loop of parseexec. */
  function Args(ts: seq<Token>, argv: seq<string>, files: Files): (r: Parsed)
    ensures r.Ok? ==> |r.rest| <= |ts|
    decreases |ts|
  {
    if Stops(ts) then Ok(Wrap(Exec(argv), files), ts)
    else if !ts[0].Name? then Panic(Syntax)
    else if |argv| + 1 >= MAXARGS then Panic(TooManyArgs)
    else
      match Redirs(ts[1..])
      case Found(more, rest) => Args(rest, argv + [ts[0].word], files + more)
      case NoFile => Panic(MissingFile)
  }

  /** parseblock behind its opening parenthesis. */
  function Block(ts: seq<Token>): (r: Parsed)
    ensures r.Ok? ==> |r.rest| <= |ts|
    decreases |ts|, 3
  {
    match Line(ts)
    case Panic(e) => Panic(e)
    case Ok(c, rest) =>
      if rest == [] || !rest[0].RPar? then Panic(MissingParen)
      else
        match Redirs(rest[1..])
        case Found(files, rest') => Ok(Wrap(c, files), rest')
        case NoFile => Panic(MissingFile)
  }

  /** parseexec. */
  function Simple(ts: seq<Token>): (r: Parsed)
    ensures r.Ok? ==> |r.rest| <= |ts|
    decreases |ts|, 0
  {
    if ts != [] && ts[0].LPar? then Block(ts[1..])
    else
      match Redirs(ts)
      case Found(files, rest) => Args(rest, [], files)
      case NoFile => Panic(MissingFile)
  }

  /** parsepipe. */
  function Pipeline(ts: seq<Token>): (r: Parsed)
    ensures r.Ok? ==> |r.rest| <= |ts|
    decreases |ts|, 1
  {
    match Simple(ts)
    case Panic(e) => Panic(e)
    case Ok(c, rest) =>
      if rest == [] || !rest[0].Bar? then Ok(c, rest)
      else
        match Pipeline(rest[1..])
        case Panic(e) => Panic(e)
        case Ok(c', rest') => Ok(PipeTo(c, c'), rest')
  }

  /** The loop of parseline. */
  function Backs(c: Command, ts: seq<Token>): (r: (Command, seq<Token>))
    ensures |r.1| <= |ts|
    decreases |ts|
  {
    if ts != [] && ts[0].Amp? then Backs(Back(c), ts[1..]) else (c, ts)
  }

  /** parseline. */
  function Line(ts: seq<Token>): (r: Parsed)
    ensures r.Ok? ==> |r.rest| <= |ts|
    decreases |ts|, 2
  {
    match Pipeline(ts)
    case Panic(e) => Panic(e)
    case Ok(c, rest) =>
      var (c1, rest1) := Backs(c, rest);
      if rest1 == [] || !rest1[0].Semi? then Ok(c1, rest1)
      else
        match Line(rest1[1..])
        case Panic(e) => Panic(e)
        case Ok(c2, rest2) => Ok(Then(c1, c2), rest2)
  }

  /** parsecmd: a line and nothing after it. */
  function Parse(ts: seq<Token>): (r: Parsed)
    ensures r.Ok? ==> r.rest == []
  {
    match Line(ts)
    case Panic(e) => Panic(e)
    case Ok(c, rest) => if rest == [] then Ok(c, []) else Panic(Leftovers)
  }

  // ---------- Printing ----------

  /** The command inside the outer redirections, and those redirections. */
  function Core(c: Command): Command { if c.Redir? then Core(c.cmd) else c }

  function Outer(c: Command): Files {
    if c.Redir? then Outer(c.cmd) + [(c.kind, c.file)] else []
  }

  function PrintFiles(files: Files): seq<Token> {
    if files == [] then [] else [Angle(files[0].0), Name(files[0].1)] + PrintFiles(files[1..])
  }

  function PrintWords(argv: seq<string>): seq<Token> {
    if argv == [] then [] else [Name(argv[0])] + PrintWords(argv[1..])
  }

  /** What the grammar expects at a place: a line, a pipeline with ampersands, a pipeline, or a simple
      command. */
  datatype Level = AtLine | AtBacks | AtPipe | AtSimple

  function Rank(c: Command, at: Level): nat {
    var cut := match c case Then(_, _) => 0 case Back(_) => 1 case PipeTo(_, _) => 2 case _ => 3;
    var level := match at case AtLine => 0 case AtBacks => 1 case AtPipe => 2 case AtSimple => 3;
    (cut - level + 4) % 4
  }

  /** The tokens of a command; where it does not fit, it goes in parentheses. */
  function Print(c: Command, at: Level): seq<Token>
    decreases c, Rank(c, at)
  {
    match at
    case AtLine => if c.Then? then Print(c.left, AtBacks) + [Semi] + Print(c.right, AtLine) else Print(c, AtBacks)
    case AtBacks => if c.Back? then Print(c.cmd, AtBacks) + [Amp] else Print(c, AtPipe)
    case AtPipe => if c.PipeTo? then Print(c.left, AtSimple) + [Bar] + Print(c.right, AtPipe) else Print(c, AtSimple)
    case AtSimple =>
      if c.Exec? then PrintWords(c.argv)
      else if c.Redir? then
        CoreSmaller(c);
        (if Core(c).Exec? then PrintWords(Core(c).argv)
         else [LPar] + Print(Core(c), AtLine) + [RPar]) + PrintFiles(Outer(c))
      else [LPar] + Print(c, AtLine) + [RPar]
  }

  lemma CoreSmaller(c: Command)
    requires c.Redir?
    ensures Core(c) < c && !Core(c).Redir?
  {
  }

  /** No simple command has more than nine words. */
  predicate Short(c: Command) {
    match c
    case Exec(argv) => |argv| < MAXARGS
    case Redir(c', _, _) => Short(c')
    case PipeTo(l, r) => Short(l) && Short(r)
    case Then(l, r) => Short(l) && Short(r)
    case Back(c') => Short(c')
  }

  // ---------- The grammar undoes the printer ----------

  lemma {:induction false} WrapOuter(c: Command, files: Files)
    ensures Wrap(Core(c), Outer(c) + files) == Wrap(c, files)
  {
    if c.Redir? {
      var last := [(c.kind, c.file)];
      assert Outer(c) + files == Outer(c.cmd) + (last + files);
      WrapOuter(c.cmd, last + files);
      assert (last + files)[1..] == files;
    } else {
      assert Outer(c) + files == files;
    }
  }

  lemma {:induction false} RedirsUndo(files: Files, rest: seq<Token>)
    requires rest == [] || !rest[0].Angle?
    ensures Redirs(PrintFiles(files) + rest) == Found(files, rest)
  {
    var ts := PrintFiles(files) + rest;
    if files == [] {
      assert ts == rest;
    } else {
      RedirsUndo(files[1..], rest);
      hide PrintFiles;
      var more := PrintFiles(files[1..]) + rest;
      assert ts == [Angle(files[0].0), Name(files[0].1)] + more by { PrintFilesStep(files); }
      RedirsStep(ts, more);
      assert files == [files[0]] + files[1..];
    }
  }

  lemma PrintFilesStep(files: Files)
    requires files != []
    ensures PrintFiles(files) == [Angle(files[0].0), Name(files[0].1)] + PrintFiles(files[1..])
  {
  }

  lemma RedirsStep(ts: seq<Token>, more: seq<Token>)
    requires |ts| >= 2 && ts[0].Angle? && ts[1].Name? && ts == [ts[0], ts[1]] + more && Redirs(more).Found?
    ensures Redirs(ts) == Found([(ts[0].kind, ts[1].word)] + Redirs(more).files, Redirs(more).rest)
  {
    assert ts[2..] == more;
  }

  lemma PrintWordsStep(argv: seq<string>)
    requires argv != []
    ensures PrintWords(argv) == [Name(argv[0])] + PrintWords(argv[1..])
  {
  }

  lemma ArgsStep(ts: seq<Token>, next: seq<Token>, argv: seq<string>, files: Files)
    requires ts != [] && ts[0].Name? && |argv| + 1 < MAXARGS && ts == [ts[0]] + next && Redirs(next).Found?
    ensures Args(ts, argv, files) == Args(Redirs(next).rest, argv + [ts[0].word], files + Redirs(next).files)
  {
    hide Wrap, Redirs;
    assert ts[1..] == next;
  }

  lemma ArgsEnd(ts: seq<Token>, argv: seq<string>, files: Files)
    requires Stops(ts)
    ensures Args(ts, argv, files) == Ok(Wrap(Exec(argv), files), ts)
  {
    hide Wrap;
  }

  lemma NoRedirs(ts: seq<Token>)
    requires ts == [] || !ts[0].Angle?
    ensures Redirs(ts) == Found([], ts)
  {
  }

  lemma {:induction false} ArgsUndo(argv: seq<string>, done: seq<string>, files: Files, rest: seq<Token>)
    requires Stops(rest) && |done| + |argv| < MAXARGS && argv != []
    ensures Args(PrintWords(argv) + PrintFiles(files) + rest, done, []) == Ok(Wrap(Exec(done + argv), files), rest)
    decreases |argv|
  {
    hide Args, Redirs, Wrap, PrintWords, PrintFiles;
    var ts := PrintWords(argv) + PrintFiles(files) + rest;
    var next := PrintWords(argv[1..]) + PrintFiles(files) + rest;
    PrintWordsStep(argv);
    assert ts == [Name(argv[0])] + next;
    if |argv| == 1 {
      assert next == PrintFiles(files) + rest && done + [argv[0]] == done + argv by { NoWords(argv[1..]); }
      RedirsUndo(files, rest);
      ArgsStep(ts, next, done, []);
      ArgsEnd(rest, done + argv, files);
      assert [] + files == files;
    } else {
      PrintWordsStep(argv[1..]);
      NoRedirs(next);
      ArgsStep(ts, next, done, []);
      var none: Files := [];
      assert none + none == none;
      ArgsUndo(argv[1..], done + [argv[0]], files, rest);
      assert done + [argv[0]] + argv[1..] == done + argv;
    }
  }

  lemma NoWords(argv: seq<string>)
    requires argv == []
    ensures PrintWords(argv) == []
  {
  }

  lemma SimpleUndo(argv: seq<string>, files: Files, rest: seq<Token>)
    requires Stops(rest) && |argv| < MAXARGS
    ensures Simple(PrintWords(argv) + PrintFiles(files) + rest) == Ok(Wrap(Exec(argv), files), rest)
  {
    hide Args, Redirs, Wrap, PrintFiles, Block;
    var ts := PrintWords(argv) + PrintFiles(files) + rest;
    if argv == [] {
      assert ts == PrintFiles(files) + rest;
      FilesFirst(files);
      RedirsUndo(files, rest);
      ArgsEnd(rest, [], files);
    } else {
      PrintWordsStep(argv);
      NoRedirs(ts);
      ArgsUndo(argv, [], files, rest);
      assert [] + argv == argv;
    }
  }

  lemma FilesFirst(files: Files)
    ensures PrintFiles(files) == [] || PrintFiles(files)[0].Angle?
  {
  }

  /** A command in parentheses, with redirections behind it. */
  lemma BlockUndo(c: Command, inner: seq<Token>, files: Files, rest: seq<Token>)
    requires Stops(rest)
             && Line(inner + ([RPar] + (PrintFiles(files) + rest))) == Ok(c, [RPar] + (PrintFiles(files) + rest))
    ensures Simple([LPar] + inner + [RPar] + PrintFiles(files) + rest) == Ok(Wrap(c, files), rest)
  {
    hide Args, Redirs, Wrap, PrintFiles, Line;
    var after := PrintFiles(files) + rest;
    var ts := [LPar] + inner + [RPar] + PrintFiles(files) + rest;
    assert ts[1..] == inner + ([RPar] + after);
    assert ([RPar] + after)[1..] == after;
    RedirsUndo(files, rest);
  }

  predicate NotBar(ts: seq<Token>) { Stops(ts) && (ts == [] || !ts[0].Bar?) }

  predicate Ends(ts: seq<Token>) { ts == [] || ts[0].RPar? }

  lemma PipelineEnd(ts: seq<Token>, c: Command, rest: seq<Token>)
    requires Simple(ts) == Ok(c, rest) && (rest == [] || !rest[0].Bar?)
    ensures Pipeline(ts) == Ok(c, rest)
  {
    hide Simple;
  }

  lemma PipelineStep(ts: seq<Token>, c: Command, more: seq<Token>)
    requires Simple(ts) == Ok(c, [Bar] + more) && Pipeline(more).Ok?
    ensures Pipeline(ts) == Ok(PipeTo(c, Pipeline(more).cmd), Pipeline(more).rest)
  {
    hide Simple;
    assert ([Bar] + more)[1..] == more;
  }

  lemma BacksEnd(c: Command, ts: seq<Token>)
    requires ts == [] || !ts[0].Amp?
    ensures Backs(c, ts) == (c, ts)
  {
  }

  lemma BacksStep(c: Command, ts: seq<Token>)
    ensures Backs(c, [Amp] + ts) == Backs(Back(c), ts)
  {
    assert ([Amp] + ts)[1..] == ts;
  }

  lemma LineEnd(ts: seq<Token>, c: Command, rest: seq<Token>)
    requires Pipeline(ts).Ok? && Backs(Pipeline(ts).cmd, Pipeline(ts).rest) == (c, rest)
             && (rest == [] || !rest[0].Semi?)
    ensures Line(ts) == Ok(c, rest)
  {
    hide Pipeline, Backs;
  }

  lemma LineStep(ts: seq<Token>, c: Command, more: seq<Token>)
    requires Pipeline(ts).Ok? && Backs(Pipeline(ts).cmd, Pipeline(ts).rest) == (c, [Semi] + more) && Line(more).Ok?
    ensures Line(ts) == Ok(Then(c, Line(more).cmd), Line(more).rest)
  {
    hide Pipeline, Backs;
    assert ([Semi] + more)[1..] == more;
  }

  lemma Regroup(a: seq<Token>, x: Token, b: seq<Token>, rest: seq<Token>)
    ensures a + [x] + b + rest == a + ([x] + (b + rest))
  {
  }

  /** Every level of the grammar reads back what the printer wrote at that level. */
  lemma {:induction false} Undo(c: Command, at: Level, rest: seq<Token>)
    requires Short(c) && Stops(rest)
    ensures at.AtSimple? ==> Simple(Print(c, at) + rest) == Ok(c, rest)
    ensures at.AtPipe? && NotBar(rest) ==> Pipeline(Print(c, at) + rest) == Ok(c, rest)
    ensures at.AtBacks? && NotBar(rest) ==>
              var r := Pipeline(Print(c, at) + rest); r.Ok? && Backs(r.cmd, r.rest) == Backs(c, rest)
    ensures at.AtLine? && Ends(rest) ==> Line(Print(c, at) + rest) == Ok(c, rest)
    decreases c, Rank(c, at)
  {
    hide Simple, Pipeline, Backs, Line, Print, Wrap;
    match at {
      case AtLine => if Ends(rest) { UndoLine(c, rest); }
      case AtBacks => if NotBar(rest) { UndoBacks(c, rest); }
      case AtPipe => if NotBar(rest) { UndoPipe(c, rest); }
      case AtSimple => UndoSimple(c, rest);
    }
  }

  lemma {:induction false} UndoLine(c: Command, rest: seq<Token>)
    requires Short(c) && Ends(rest)
    ensures Line(Print(c, AtLine) + rest) == Ok(c, rest)
    decreases c, Rank(c, AtLine), 0
  {
    hide Simple, Pipeline, Line, Wrap, Backs;
    if c.Then? {
      var more := Print(c.right, AtLine) + rest;
      assert Print(c, AtLine) == Print(c.left, AtBacks) + [Semi] + Print(c.right, AtLine);
      hide Print;
      Regroup(Print(c.left, AtBacks), Semi, Print(c.right, AtLine), rest);
      Undo(c.left, AtBacks, [Semi] + more);
      BacksEnd(c.left, [Semi] + more);
      Undo(c.right, AtLine, rest);
      LineStep(Print(c.left, AtBacks) + ([Semi] + more), c.left, more);
    } else {
      assert Print(c, AtLine) == Print(c, AtBacks);
      hide Print;
      Undo(c, AtBacks, rest);
      BacksEnd(c, rest);
      LineEnd(Print(c, AtBacks) + rest, c, rest);
    }
  }

  lemma {:induction false} UndoBacks(c: Command, rest: seq<Token>)
    requires Short(c) && NotBar(rest)
    ensures var r := Pipeline(Print(c, AtBacks) + rest); r.Ok? && Backs(r.cmd, r.rest) == Backs(c, rest)
    decreases c, Rank(c, AtBacks), 0
  {
    hide Simple, Pipeline, Line, Wrap, Backs;
    if c.Back? {
      assert Print(c, AtBacks) + rest == Print(c.cmd, AtBacks) + ([Amp] + rest);
      hide Print;
      Undo(c.cmd, AtBacks, [Amp] + rest);
      BacksStep(c.cmd, rest);
    } else {
      assert Print(c, AtBacks) == Print(c, AtPipe);
      hide Print;
      Undo(c, AtPipe, rest);
    }
  }

  lemma {:induction false} UndoPipe(c: Command, rest: seq<Token>)
    requires Short(c) && NotBar(rest)
    ensures Pipeline(Print(c, AtPipe) + rest) == Ok(c, rest)
    decreases c, Rank(c, AtPipe), 0
  {
    hide Simple, Pipeline, Line, Wrap, Backs;
    if c.PipeTo? {
      var more := Print(c.right, AtPipe) + rest;
      assert Print(c, AtPipe) == Print(c.left, AtSimple) + [Bar] + Print(c.right, AtPipe);
      hide Print;
      Regroup(Print(c.left, AtSimple), Bar, Print(c.right, AtPipe), rest);
      Undo(c.left, AtSimple, [Bar] + more);
      Undo(c.right, AtPipe, rest);
      PipelineStep(Print(c.left, AtSimple) + ([Bar] + more), c.left, more);
    } else {
      assert Print(c, AtPipe) == Print(c, AtSimple);
      hide Print;
      Undo(c, AtSimple, rest);
      PipelineEnd(Print(c, AtSimple) + rest, c, rest);
    }
  }

  lemma {:induction false} UndoSimple(c: Command, rest: seq<Token>)
    requires Short(c) && Stops(rest)
    ensures Simple(Print(c, AtSimple) + rest) == Ok(c, rest)
    decreases c, Rank(c, AtSimple), 0
  {
    hide Simple, Pipeline, Line, Backs, PrintWords, PrintFiles;
    var core, files := Core(c), Outer(c);
    PrintSimple(c);
    hide Print;
    CoreShort(c);
    WrapOuter(c, []);
    assert files + [] == files;
    if core.Exec? {
      SimpleUndo(core.argv, files, rest);
    } else {
      if c.Redir? { CoreSmaller(c); }
      var after := [RPar] + (PrintFiles(files) + rest);
      Undo(core, AtLine, after);
      BlockUndo(core, Print(core, AtLine), files, rest);
    }
  }

  lemma PrintSimple(c: Command)
    ensures Print(c, AtSimple) == (if Core(c).Exec? then PrintWords(Core(c).argv)
                                   else [LPar] + Print(Core(c), AtLine) + [RPar]) + PrintFiles(Outer(c))
  {
    if !c.Redir? {
      assert PrintFiles(Outer(c)) == [];
    }
  }

  lemma {:induction false} CoreShort(c: Command)
    requires Short(c)
    ensures Short(Core(c))
  {
    if c.Redir? {
      CoreShort(c.cmd);
    }
  }

  // ---------- Long commands are refused ----------

  lemma {:induction false} WrapShort(c: Command, files: Files)
    ensures Short(Wrap(c, files)) == Short(c)
    decreases |files|
  {
    if files != [] {
      WrapShort(Redir(c, files[0].0, files[0].1), files[1..]);
    }
  }

  lemma {:induction false} ArgsShort(ts: seq<Token>, argv: seq<string>, files: Files)
    requires |argv| < MAXARGS
    ensures Args(ts, argv, files).Ok? ==> Short(Args(ts, argv, files).cmd)
    decreases |ts|
  {
    hide Wrap, Redirs;
    WrapShort(Exec(argv), files);
    if !Stops(ts) && ts[0].Name? && |argv| + 1 < MAXARGS && Redirs(ts[1..]).Found? {
      ArgsShort(Redirs(ts[1..]).rest, argv + [ts[0].word], files + Redirs(ts[1..]).files);
    }
  }

  lemma {:induction false} BacksShort(c: Command, ts: seq<Token>)
    requires Short(c)
    ensures Short(Backs(c, ts).0)
    decreases |ts|
  {
    if ts != [] && ts[0].Amp? {
      BacksShort(Back(c), ts[1..]);
    }
  }

  lemma {:induction false} SimpleShort(ts: seq<Token>)
    ensures Simple(ts).Ok? ==> Short(Simple(ts).cmd)
    decreases |ts|, 0
  {
    hide Wrap, Redirs, Args, Line;
    if ts != [] && ts[0].LPar? {
      LineShort(ts[1..]);
      var r := Line(ts[1..]);
      if r.Ok? && r.rest != [] && Redirs(r.rest[1..]).Found? {
        WrapShort(r.cmd, Redirs(r.rest[1..]).files);
      }
    } else if Redirs(ts).Found? {
      ArgsShort(Redirs(ts).rest, [], Redirs(ts).files);
    }
  }

  lemma {:induction false} PipelineShort(ts: seq<Token>)
    ensures Pipeline(ts).Ok? ==> Short(Pipeline(ts).cmd)
    decreases |ts|, 1
  {
    hide Simple;
    SimpleShort(ts);
    var r := Simple(ts);
    if r.Ok? && r.rest != [] && r.rest[0].Bar? {
      PipelineShort(r.rest[1..]);
    }
  }

  lemma {:induction false} LineShort(ts: seq<Token>)
    ensures Line(ts).Ok? ==> Short(Line(ts).cmd)
    decreases |ts|, 2
  {
    hide Pipeline, Backs;
    PipelineShort(ts);
    var r := Pipeline(ts);
    if r.Ok? {
      BacksShort(r.cmd, r.rest);
      var rest := Backs(r.cmd, r.rest).1;
      if rest != [] && rest[0].Semi? {
        LineShort(rest[1..]);
      }
    }
  }

  /** Parsing a printed command gives the command back, exactly if none of its simple commands has more
      than nine words. */
  lemma ParseUndoesPrint(c: Command)
    ensures Parse(Print(c, AtLine)) == Ok(c, []) <==> Short(c)
  {
    LineShort(Print(c, AtLine));
    if Short(c) {
      Undo(c, AtLine, []);
      assert Print(c, AtLine) + [] == Print(c, AtLine);
    }
  }
}
