/**
 * dump-unsafe-usage: for every function of a Rust file, the number of unsafe
 * blocks at the top level of its body and, for each of them, how many
 * statements it holds. Statements are counted recursively through loops,
 * conditionals, matches and nested blocks.
 *
 * The syntax tree keeps only what the counter distinguishes: the statement
 * forms and expression kinds it matches on, and the blocks inside them.
 */
module UnsafeUsage {
  import opened Wrappers
  import opened Text

  /** A statement: an expression statement (with or without its trailing `;`) or any other form. */
  datatype Stmt =
    | ExprStmt(e: Expr, semi: bool)
    | Local
    | ItemStmt
    | MacroStmt

  /** The expression kinds the counter matches on; the rest are OtherExpr. */
  datatype Expr =
    | Loop(body: seq<Stmt>)
    | If(thenBranch: seq<Stmt>, elseBranch: Option<Expr>)
    | BlockExpr(block: seq<Stmt>)
    | Match(arms: seq<Expr>)
    | While(body: seq<Stmt>)
    | ForLoop(body: seq<Stmt>)
    | TryBlock(block: seq<Stmt>)
    | Try
    | Unsafe(block: seq<Stmt>)
    | OtherExpr

  /** What count_statements_in_block returns for a block. */
  function BlockCount(stmts: seq<Stmt>): nat
    decreases stmts, 1
  {
    if stmts == [] then 0 else StmtCount(stmts[0]) + BlockCount(stmts[1..])
  }

  /** What one statement contributes to the count of the block holding it. */
  function StmtCount(s: Stmt): nat
    decreases s, 0
  {
    match s
    case ExprStmt(e, semi) =>
      (match e
       case Loop(body) => 1 + BlockCount(body)
       case If(thenBranch, elseBranch) => 1 + BlockCount(thenBranch) + ElseCount(elseBranch)
       case BlockExpr(block) => BlockCount(block)
       case Match(arms) => 1 + ArmsCount(arms)
       case While(body) => 1 + BlockCount(body)
       case ForLoop(body) => 1 + BlockCount(body)
       case TryBlock(block) => 1 + BlockCount(block)
       case Try => 1
       case Unsafe(block) => if semi then 1 else 1 + BlockCount(block)
       case OtherExpr => 1)
    case _ => 1
  }

  /** An else branch adds one, and its statements only when it is a plain block. */
  function ElseCount(elseBranch: Option<Expr>): nat
    decreases elseBranch, 0
  {
    match elseBranch
    case None => 0
    case Some(x) => 1 + (if x.BlockExpr? then BlockCount(x.block) else 0)
  }

  /** Each match arm adds one, and its statements when its body is a block. */
  function ArmsCount(arms: seq<Expr>): nat
    decreases arms, 1
  {
    if arms == [] then 0
    else 1 + (if arms[0].BlockExpr? then BlockCount(arms[0].block) else 0) + ArmsCount(arms[1..])
  }

  /** Counts are additive over the statements of a block. */
  lemma {:induction false} BlockCountAppend(a: seq<Stmt>, b: seq<Stmt>)
    ensures BlockCount(a + b) == BlockCount(a) + BlockCount(b)
    decreases |a|
  {
    if a == [] {
      assert a + b == b;
    } else {
      assert (a + b)[1..] == a[1..] + b;
      BlockCountAppend(a[1..], b);
    }
  }

  lemma {:induction false} ArmsCountAppend(a: seq<Expr>, b: seq<Expr>)
    ensures ArmsCount(a + b) == ArmsCount(a) + ArmsCount(b)
    decreases |a|
  {
    if a == [] {
      assert a + b == b;
    } else {
      assert (a + b)[1..] == a[1..] + b;
      ArmsCountAppend(a[1..], b);
    }
  }

  /** A statement that is not one of the compound forms. */
  predicate Simple(s: Stmt) {
    !s.ExprStmt? || s.e.OtherExpr? || s.e.Try? || (s.e.Unsafe? && s.semi)
  }

  /** A block of n simple statements counts n; an unsafe block with a `;` is one of them. */
  lemma {:induction false} SimpleStatementsCountOne(stmts: seq<Stmt>)
    requires forall i :: 0 <= i < |stmts| ==> Simple(stmts[i])
    ensures BlockCount(stmts) == |stmts|
    decreases |stmts|
  {
    if stmts != [] {
      SimpleStatementsCountOne(stmts[1..]);
    }
  }

  /**
   * count_statements_in_block: the loop over the statements of a block; the
   * result is BlockCount of the block.
   */
  method CountStatementsInBlock(block: seq<Stmt>) returns (count: nat)
    ensures count == BlockCount(block)
    decreases block, 1
  {
    count := 0;
    for i := 0 to |block|
      invariant count == BlockCount(block[..i])
    {
      assert block[..i + 1] == block[..i] + [block[i]];
      BlockCountAppend(block[..i], [block[i]]);
      var n := CountStatement(block[i]);
      count := count + n;
    }
    assert block[..|block|] == block;
  }

  /**
   * The body of that loop: the match on one statement, recursing into the
   * blocks it descends into. The result is StmtCount of the statement.
   */
  method CountStatement(stmt: Stmt) returns (count: nat)
    ensures count == StmtCount(stmt)
    decreases stmt, 0
  {
    count := 0;
    match stmt
    case ExprStmt(e, semi) =>
      match e {
        case Loop(body) =>
          var inner := CountStatementsInBlock(body);
          count := count + 1 + inner;
        case If(thenBranch, elseBranch) =>
          var inner := CountStatementsInBlock(thenBranch);
          count := count + 1 + inner;
          if elseBranch.Some? {
            count := count + 1;
            if elseBranch.value.BlockExpr? {
              var elseInner := CountStatementsInBlock(elseBranch.value.block);
              count := count + elseInner;
            }
          }
        case BlockExpr(b) =>
          var inner := CountStatementsInBlock(b);
          count := count + inner;
        case Match(arms) =>
          count := count + 1;
          for k := 0 to |arms|
            invariant count == 1 + ArmsCount(arms[..k])
          {
            assert arms[..k + 1] == arms[..k] + [arms[k]];
            ArmsCountAppend(arms[..k], [arms[k]]);
            count := count + 1;
            if arms[k].BlockExpr? {
              var armInner := CountStatementsInBlock(arms[k].block);
              count := count + armInner;
            }
          }
          assert arms[..|arms|] == arms;
        case While(body) =>
          var inner := CountStatementsInBlock(body);
          count := count + 1 + inner;
        case ForLoop(body) =>
          var inner := CountStatementsInBlock(body);
          count := count + 1 + inner;
        case TryBlock(b) =>
          var inner := CountStatementsInBlock(b);
          count := count + 1 + inner;
        case Try =>
          count := count + 1;
        case Unsafe(b) =>
          if semi {
            count := count + 1;
          } else {
            var inner := CountStatementsInBlock(b);
            count := count + 1 + inner;
          }
        case OtherExpr =>
          count := count + 1;
      }
    case _ =>
      count := count + 1;
  }

  /** An unsafe block written as a statement of its own, without a trailing `;`. */
  predicate TopUnsafe(s: Stmt) {
    s.ExprStmt? && s.e.Unsafe? && !s.semi
  }

  /** What one statement adds to the list: its count when it is a top-level unsafe block. */
  function UnsafeCount(s: Stmt): seq<nat> {
    if TopUnsafe(s) then [BlockCount(s.e.block)] else []
  }

  /** The statement count of each top-level unsafe block, in order. */
  function UnsafeCounts(stmts: seq<Stmt>): seq<nat> {
    if stmts == [] then [] else UnsafeCount(stmts[0]) + UnsafeCounts(stmts[1..])
  }

  function Sum(xs: seq<nat>): nat {
    if xs == [] then 0 else xs[0] + Sum(xs[1..])
  }

  lemma {:induction false} UnsafeCountsAppend(a: seq<Stmt>, b: seq<Stmt>)
    ensures UnsafeCounts(a + b) == UnsafeCounts(a) + UnsafeCounts(b)
    decreases |a|
  {
    if a == [] {
      assert a + b == b;
    } else {
      assert (a + b)[0] == a[0];
      assert (a + b)[1..] == a[1..] + b;
      UnsafeCountsAppend(a[1..], b);
    }
  }

  /** One more statement of a body adds exactly its own entry to the list. */
  lemma UnsafeCountsPrefix(stmts: seq<Stmt>, i: nat)
    requires i < |stmts|
    ensures UnsafeCounts(stmts[..i + 1]) == UnsafeCounts(stmts[..i]) + UnsafeCount(stmts[i])
  {
    assert stmts[..i + 1] == stmts[..i] + [stmts[i]];
    UnsafeCountsAppend(stmts[..i], [stmts[i]]);
    assert UnsafeCounts([stmts[i]]) == UnsafeCount(stmts[i]) + UnsafeCounts([]);
  }

  /**
   * The unsafe blocks are part of the function body: each counts itself and its
   * statements in the body's count, so together they never exceed it.
   */
  lemma {:induction false} UnsafeWithinBlock(stmts: seq<Stmt>)
    ensures Sum(UnsafeCounts(stmts)) + |UnsafeCounts(stmts)| <= BlockCount(stmts)
    decreases |stmts|
  {
    if stmts != [] {
      UnsafeWithinBlock(stmts[1..]);
      var head := UnsafeCount(stmts[0]);
      var tail := UnsafeCounts(stmts[1..]);
      assert UnsafeCounts(stmts) == head + tail;
      if TopUnsafe(stmts[0]) {
        assert (head + tail)[1..] == tail;
      } else {
        assert head + tail == tail;
      }
    }
  }

  /** A body reports no unsafe block exactly when none of its statements is one. */
  lemma {:induction false} NoUnsafeBlocks(stmts: seq<Stmt>)
    ensures UnsafeCounts(stmts) == [] <==> forall i :: 0 <= i < |stmts| ==> !TopUnsafe(stmts[i])
    decreases |stmts|
  {
    if stmts != [] {
      NoUnsafeBlocks(stmts[1..]);
      if !TopUnsafe(stmts[0]) {
        assert forall i :: 1 <= i < |stmts| ==> stmts[i] == stmts[1..][i - 1];
      }
    }
  }

  /**
   * count_unsafe_statements: the top-level unsafe blocks of a function body,
   * their number and the statement count of each.
   */
  method CountUnsafeStatements(block: seq<Stmt>) returns (unsafeBlockCount: nat, resList: seq<nat>)
    ensures resList == UnsafeCounts(block)
    ensures unsafeBlockCount == |resList|
  {
    unsafeBlockCount := 0;
    resList := [];
    for i := 0 to |block|
      invariant resList == UnsafeCounts(block[..i])
      invariant unsafeBlockCount == |resList|
    {
      UnsafeCountsPrefix(block, i);
      match block[i]
      case ExprStmt(Unsafe(b), false) =>
        unsafeBlockCount := unsafeBlockCount + 1;
        var res := CountStatementsInBlock(b);
        resList := resList + [res];
      case _ =>
    }
    assert block[..|block|] == block;
  }

  /** The decimal text of each count. */
  function CountTexts(xs: seq<nat>): (r: seq<string>)
    ensures |r| == |xs|
    ensures forall i :: 0 <= i < |xs| ==> r[i] == NatToString(xs[i])
  {
    seq(|xs|, i requires 0 <= i < |xs| => NatToString(xs[i]))
  }

  /** The line printed for a function: `name;count;c1;c2;...`. */
  function OutputLine(name: string, unsafeBlockCount: nat, resList: seq<nat>): string {
    name + ";" + NatToString(unsafeBlockCount) + ";" + Join(CountTexts(resList), ';')
  }

  lemma NoSemicolonInNumber(n: nat)
    ensures ';' !in NatToString(n)
  {
  }

  /**
   * Splitting an output line at `;` gives the name, the number of blocks and one
   * field per block; with no block the line ends in `;` and the last field is empty.
   */
  lemma OutputLineFields(name: string, unsafeBlockCount: nat, resList: seq<nat>)
    requires ';' !in name
    ensures Split(OutputLine(name, unsafeBlockCount, resList), ';') ==
      [name, NatToString(unsafeBlockCount)] + (if resList == [] then [""] else CountTexts(resList))
  {
    var count := NatToString(unsafeBlockCount);
    var rest := Join(CountTexts(resList), ';');
    NoSemicolonInNumber(unsafeBlockCount);
    assert OutputLine(name, unsafeBlockCount, resList) == name + [';'] + (count + [';'] + rest);
    SplitAfterField(name, ';', count + [';'] + rest);
    SplitAfterField(count, ';', rest);
    CountFieldsSplit(resList);
  }

  /** The counts joined with `;` split back into their decimal texts; no count leaves one empty field. */
  lemma CountFieldsSplit(resList: seq<nat>)
    ensures Split(Join(CountTexts(resList), ';'), ';') == if resList == [] then [""] else CountTexts(resList)
  {
    if resList != [] {
      forall i | 0 <= i < |resList|
        ensures ';' !in CountTexts(resList)[i]
      {
        NoSemicolonInNumber(resList[i]);
      }
      SplitJoin(CountTexts(resList), ';');
    }
  }

  /** A function item with its name and body; every other item is skipped. */
  datatype Item = Fn(name: string, body: seq<Stmt>) | OtherItem

  /** The function items of a file, in order. */
  function Functions(items: seq<Item>): (r: seq<Item>)
    ensures forall i :: 0 <= i < |r| ==> r[i].Fn?
  {
    if items == [] then []
    else (if items[0].Fn? then [items[0]] else []) + Functions(items[1..])
  }

  lemma {:induction false} FunctionsAppend(a: seq<Item>, b: seq<Item>)
    ensures Functions(a + b) == Functions(a) + Functions(b)
    decreases |a|
  {
    if a == [] {
      assert a + b == b;
    } else {
      assert (a + b)[1..] == a[1..] + b;
      FunctionsAppend(a[1..], b);
    }
  }

  /** The line reported for one function. */
  function FunctionLine(f: Item): string
    requires f.Fn?
  {
    OutputLine(f.name, |UnsafeCounts(f.body)|, UnsafeCounts(f.body))
  }

  /** The loop of try_main over the items: one line per function item, in order. */
  method ReportLines(items: seq<Item>) returns (lines: seq<string>)
    ensures |lines| == |Functions(items)|
    ensures forall j :: 0 <= j < |lines| ==> lines[j] == FunctionLine(Functions(items)[j])
  {
    lines := [];
    for i := 0 to |items|
      invariant |lines| == |Functions(items[..i])|
      invariant forall j :: 0 <= j < |lines| ==> lines[j] == FunctionLine(Functions(items[..i])[j])
    {
      assert items[..i + 1] == items[..i] + [items[i]];
      FunctionsAppend(items[..i], [items[i]]);
      if items[i].Fn? {
        var unsafeBlockCount, resList := CountUnsafeStatements(items[i].body);
        lines := lines + [OutputLine(items[i].name, unsafeBlockCount, resList)];
      }
    }
    assert items[..|items|] == items;
  }

  /** A position in the source, as syn reports it: 1-based line, 0-based column. */
  datatype Position = Position(line: nat, column: nat)

  /** A parse error: its span and message. */
  datatype SynError = SynError(start: Position, end: Position, message: string)

  /** Why the tool gives up; main prints it and exits with status 1. */
  datatype Error =
    | IncorrectUsage
    | ReadFile(reason: string)
    | ParseFile(error: SynError, filepath: string, sourceCode: string)

  /**
   * The parts of the snippet render_location draws, or the one-line fallback
   * when the error's line is not in the file.
   */
  datatype Rendered =
    | Fallback(text: string)
    | Snippet(lineNumber: nat, column: nat, code: string, offset: nat, carets: nat, message: string)

  /** render_location without the colours. */
  function RenderLocation(err: SynError, code: string): (r: Rendered)
    ensures r.Fallback? <==> err.start.line == 0 || err.start.line > |Lines(code)|
    ensures r.Fallback? ==> r.text == "Unable to parse file: " + err.message
    ensures r.Snippet? ==>
      var line := Lines(code)[err.start.line - 1];
      && r.lineNumber == err.start.line && r.column == err.start.column
      && r.code == TrimEnd(line) && r.offset == err.start.column && r.message == err.message
      && r.carets >= 1
      // a span ending on a later line is underlined to the end of the start line
      && (err.end.line > err.start.line && err.start.column < |line| ==> r.offset + r.carets == |line|)
      // a span on one line is underlined exactly
      && (err.end.line <= err.start.line && err.start.column < err.end.column ==>
            r.offset + r.carets == err.end.column)
      // an empty or inverted span still gets one caret
      && (err.end.line <= err.start.line && err.end.column <= err.start.column ==> r.carets == 1)
  {
    var lines := Lines(code);
    if err.start.line == 0 || err.start.line > |lines| then
      Fallback("Unable to parse file: " + err.message)
    else
      var line := lines[err.start.line - 1];
      var endColumn := if err.end.line > err.start.line then |line| else err.end.column;
      var width := if endColumn > err.start.column then endColumn - err.start.column else 0;
      Snippet(err.start.line, err.start.column, TrimEnd(line), err.start.column,
              if width > 1 then width else 1, err.message)
  }

  /** The heading line of a parse-error snippet. */
  const SNIPPET_HEADING := "error: Syn unable to parse file"

  /** The printed lines of a snippet (between the newlines of the format string). */
  function SnippetLines(filename: string, r: Rendered): (lines: seq<string>)
    requires r.Snippet?
    ensures |lines| == 7 && lines[0] == "" && lines[1] == SNIPPET_HEADING
    ensures lines[4] == NatToString(r.lineNumber) + " | " + r.code
  {
    var lineLabel := NatToString(r.lineNumber);
    var indent := Repeat(' ', |lineLabel|);
    [ "",
      SNIPPET_HEADING,
      indent + "--> " + filename + ":" + lineLabel + ":" + NatToString(r.column),
      indent + " |",
      lineLabel + " | " + r.code,
      indent + " | " + Repeat(' ', r.offset) + Repeat('^', r.carets) + " " + r.message,
      "" ]
  }

  /** The path's last component, or `main.rs` when it has none. */
  function FileName(path: string): string {
    var parts := Split(StripEnd(path, '/'), '/');
    var last := parts[|parts| - 1];
    if last == "" || last == "." || last == ".." then "main.rs" else last
  }

  /**
   * The file name shown for a path joined from a directory and a plain name is
   * that name, except that "." and ".." fall back to `main.rs`.
   */
  lemma FileNameOfJoin(dir: string, name: string)
    requires name != [] && '/' !in name
    ensures FileName(JoinPath(dir, name)) == if name == "." || name == ".." then "main.rs" else name
  {
    JoinPathLast(dir, name);
    assert StripEnd(JoinPath(dir, name), '/') == JoinPath(dir, name);
  }

  /** A path that is empty or only slashes has no last component: the fallback is shown. */
  lemma FileNameOfSlashes(n: nat)
    ensures FileName(Repeat('/', n)) == "main.rs"
  {
    assert StripEnd(Repeat('/', n), '/') == [];
  }

  /**
   * What main prints on standard error for each failure: the usage line, the
   * read error after its prefix, or for a parse error either the one-line
   * fallback (the error's line is not in the file) or the snippet, which
   * opens with an empty line and the heading.
   */
  function ErrorMessage(e: Error): (r: string)
    ensures e.IncorrectUsage? ==> r == "Usage: dump-syntax path/to/filename.rs"
    ensures e.ReadFile? ==> StartsWith(r, "Unable to read file: ") && r[21..] == e.reason
    ensures e.ParseFile? && (e.error.start.line == 0 || e.error.start.line > |Lines(e.sourceCode)|) ==>
      r == "Unable to parse file: " + e.error.message
    ensures e.ParseFile? && 1 <= e.error.start.line <= |Lines(e.sourceCode)| ==>
      StartsWith(r, ['\n'] + SNIPPET_HEADING + ['\n'])
  {
    match e
    case IncorrectUsage => "Usage: dump-syntax path/to/filename.rs"
    case ReadFile(reason) => "Unable to read file: " + reason
    case ParseFile(err, filepath, sourceCode) =>
      var rendered := RenderLocation(err, sourceCode);
      if rendered.Fallback? then rendered.text
      else
        var lines := SnippetLines(FileName(filepath), rendered);
        SnippetHeading(lines, SNIPPET_HEADING, '\n');
        Join(lines, '\n')
  }

  /** Lines that open with an empty line and a heading join into text that starts with both. */
  lemma SnippetHeading(lines: seq<string>, heading: string, sep: char)
    requires |lines| >= 3 && lines[0] == "" && lines[1] == heading
    ensures StartsWith(Join(lines, sep), [sep] + heading + [sep])
  {
    var rest := Join(lines[2..], sep);
    assert lines[1..][1..] == lines[2..];
    assert Join(lines[1..], sep) == heading + [sep] + rest;
    assert Join(lines, sep) == [sep] + heading + [sep] + rest;
  }

  /**
   * The snippet's lines come back apart, and the carets sit under the code: the
   * lineLabel and the indent have the same width, so the `|` of the code line and
   * of the caret line share a column, and caret j is in the column of the code's
   * character at offset + j.
   */
  lemma SnippetAligned(filename: string, r: Rendered)
    requires r.Snippet?
    requires '\n' !in filename && '\n' !in r.code && '\n' !in r.message
    ensures var text := Join(SnippetLines(filename, r), '\n');
      var f := Split(text, '\n');
      var width := |NatToString(r.lineNumber)|;
      var start := width + 3 + r.offset;
      && |f| == 7
      && |f[4]| >= width + 3 && |f[5]| >= start + r.carets
      && f[4][width + 1] == '|' && f[5][width + 1] == '|'
      && f[4][width + 3..] == r.code
      && (forall j :: start <= j < start + r.carets ==> f[5][j] == '^')
  {
    var lines := SnippetLines(filename, r);
    var lineLabel := NatToString(r.lineNumber);
    NoNewlineInNumber(r.lineNumber);
    NoNewlineInNumber(r.column);
    forall i | 0 <= i < |lines|
      ensures '\n' !in lines[i]
    {
    }
    SplitJoin(lines, '\n');
  }

  lemma NoNewlineInNumber(n: nat)
    ensures '\n' !in NatToString(n)
  {
  }

  /**
   * try_main: exactly one argument, the path; the file is read and parsed, and
   * one line is printed per function. `read` and `parse` stand for the file
   * system and syn.
   */
  method TryMain(argv: seq<string>, read: string -> Result<string, string>,
                 parse: string -> Result<seq<Item>, SynError>)
    returns (r: Result<seq<string>, Error>)
    ensures |argv| != 2 <==> r == Failure(IncorrectUsage)
    ensures |argv| == 2 && read(argv[1]).Failure? ==> r == Failure(ReadFile(read(argv[1]).error))
    ensures |argv| == 2 && read(argv[1]).Success? && parse(read(argv[1]).value).Failure? ==>
      r == Failure(ParseFile(parse(read(argv[1]).value).error, argv[1], read(argv[1]).value))
    ensures r.Success? <==> |argv| == 2 && read(argv[1]).Success? && parse(read(argv[1]).value).Success?
    ensures r.Success? ==>
      var fns := Functions(parse(read(argv[1]).value).value);
      && |r.value| == |fns|
      && forall j :: 0 <= j < |fns| ==> r.value[j] == FunctionLine(fns[j])
  {
    if |argv| != 2 {
      return Failure(IncorrectUsage);
    }
    var filepath := argv[1];
    match read(filepath)
    case Failure(reason) =>
      r := Failure(ReadFile(reason));
    case Success(code) =>
      match parse(code)
      case Failure(error) =>
        r := Failure(ParseFile(error, filepath, code));
      case Success(items) =>
        var lines := ReportLines(items);
        r := Success(lines);
  }
}
