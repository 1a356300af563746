/**
 * dump-var-types: for every function of a Rust file, a `Function;name` line,
 * one `Argument;name;type` line per typed argument, a `Return;type` line and
 * one `Local;name;type` line per initialised `let`, the type of a local being
 * guessed from its initialiser when it carries no annotation.
 *
 * Type annotations are kept as their kind and the text the token printer gives
 * for them; that printing is not modelled.
 */
module VarTypes {
  import opened Wrappers
  import opened Text

  /** The kinds of type annotation the tool tells apart. */
  datatype TypeKind = ArrayType | TupleType | OtherType

  /** A type annotation and its token text (TypeToString). */
  datatype RType = RType(kind: TypeKind, text: string)

  /** Patterns: a plain identifier, an identifier with a type annotation, or anything else. */
  datatype Pat =
    | IdentPat(ident: string)
    | TypedPat(pat: Pat, ty: RType)
    | OtherPat

  datatype Lit = IntLit | FloatLit | StrLit | CharLit | BoolLit | ByteLit | ByteStrLit | VerbatimLit | OtherLit

  /** A field of a struct expression, by name or by position. */
  datatype Member = Named(name: string) | Unnamed(index: nat)

  /** The expression kinds get_type_of_expression matches on; the rest are OtherExpr. */
  datatype Expr =
    | PathExpr(segments: seq<string>)
    | LitExpr(lit: Lit)
    | UnaryExpr(operand: Expr)
    | CallExpr
    | ClosureExpr(inputs: seq<Pat>)
      /** The macro's path when it is a single identifier. */
    | MacroExpr(ident: Option<string>)
    | ArrayExpr(elems: seq<Expr>)
    | TupleExpr(elems: seq<Expr>)
      /** The struct's path when it is a single identifier, and its fields in order. */
    | StructExpr(ident: Option<string>, fields: seq<Member>)
    | OtherExpr

  const NOT_IDENTIFIED: string := "NotIdentified#"

  /** Parts joined by ", ". */
  function CommaJoin(parts: seq<string>): string {
    if |parts| == 0 then ""
    else if |parts| == 1 then parts[0]
    else parts[0] + ", " + CommaJoin(parts[1..])
  }

  function LitType(lit: Lit): string {
    match lit
    case IntLit => "int"
    case FloatLit => "float"
    case StrLit => "string"
    case CharLit => "char"
    case BoolLit => "bool"
    case ByteLit => "u8"
    case ByteStrLit => "Vec<u8>"
    case VerbatimLit => "Verbatim Literal"
    case OtherLit => NOT_IDENTIFIED + "ExprLit"
  }

  /** get_type_of_expression: the type string guessed for an initialiser. */
  function TypeOf(e: Expr): string
    decreases e
  {
    match e
    case PathExpr(segments) =>
      if segments != [] then "enum#" + segments[0] else NOT_IDENTIFIED + "ExprPath"
    case LitExpr(lit) => LitType(lit)
    case UnaryExpr(operand) => TypeOf(operand)
    case CallExpr => NOT_IDENTIFIED + "ExprCall"
    case ClosureExpr(inputs) =>
      if inputs != [] && inputs[0].TypedPat? then inputs[0].ty.text else NOT_IDENTIFIED + "ExprClosure"
    case MacroExpr(ident) =>
      if ident == Some("format") then "string" else NOT_IDENTIFIED + "ExprMacro"
    case ArrayExpr(elems) =>
      if elems != [] then "array#[" + TypeOf(elems[0]) + "; " + NatToString(|elems|) + "]" else "array#[]"
    case TupleExpr(elems) =>
      if elems != [] then "tuple#(" + CommaJoin(TypesOf(elems)) + ")" else "tuple#()"
    case StructExpr(ident, fields) =>
      if ident.Some? && fields != [] && fields[0].Named? then "struct#" + ident.value
      else NOT_IDENTIFIED + "Struct"
    case OtherExpr => NOT_IDENTIFIED + "Expression"
  }

  /** The type of each element, in order. */
  function TypesOf(elems: seq<Expr>): (r: seq<string>)
    decreases elems
  {
    if elems == [] then [] else [TypeOf(elems[0])] + TypesOf(elems[1..])
  }

  /**
   * How many `ExprLit` lines the literal branch prints while the type is
   * guessed: the array case looks only at its first element, the tuple case at
   * every element.
   */
  function Echoes(e: Expr): nat
    decreases e
  {
    match e
    case LitExpr(_) => 1
    case UnaryExpr(operand) => Echoes(operand)
    case ArrayExpr(elems) => if elems != [] then Echoes(elems[0]) else 0
    case TupleExpr(elems) => EchoesOf(elems)
    case _ => 0
  }

  function EchoesOf(elems: seq<Expr>): nat
    decreases elems
  {
    if elems == [] then 0 else Echoes(elems[0]) + EchoesOf(elems[1..])
  }

  lemma {:induction false} TypesOfLength(elems: seq<Expr>)
    ensures |TypesOf(elems)| == |elems|
    ensures forall i :: 0 <= i < |elems| ==> TypesOf(elems)[i] == TypeOf(elems[i])
    decreases |elems|
  {
    if elems != [] {
      TypesOfLength(elems[1..]);
    }
  }

  /**
   * The shape of each guessed type: a path with a segment is an enum, a
   * non-empty array names its first element's type and its length, a tuple
   * lists the element types, a unary operator is transparent, and the cases the
   * tool cannot place are tagged NotIdentified.
   */
  lemma TypeOfShape(e: Expr)
    ensures e.PathExpr? && e.segments != [] ==> TypeOf(e) == "enum#" + e.segments[0]
    ensures e.PathExpr? && e.segments == [] ==> TypeOf(e) == "NotIdentified#ExprPath"
    ensures e.UnaryExpr? ==> TypeOf(e) == TypeOf(e.operand) && Echoes(e) == Echoes(e.operand)
    ensures e.LitExpr? ==> Echoes(e) == 1
    ensures e.ArrayExpr? && e.elems != [] ==>
      TypeOf(e) == "array#[" + TypeOf(e.elems[0]) + "; " + NatToString(|e.elems|) + "]"
    ensures e.TupleExpr? && e.elems != [] ==>
      && |TypesOf(e.elems)| == |e.elems|
      && (forall i :: 0 <= i < |e.elems| ==> TypesOf(e.elems)[i] == TypeOf(e.elems[i]))
      && TypeOf(e) == "tuple#(" + CommaJoin(TypesOf(e.elems)) + ")"
    ensures e.CallExpr? || e.OtherExpr? ==> StartsWith(TypeOf(e), NOT_IDENTIFIED)
  {
    if e.TupleExpr? {
      TypesOfLength(e.elems);
    }
  }

  /** A type expression seen through any number of unary operators keeps its type. */
  lemma {:induction false} UnaryTransparent(e: Expr)
    ensures TypeOf(e) == TypeOf(StripUnary(e)) && Echoes(e) == Echoes(StripUnary(e))
    decreases e
  {
    if e.UnaryExpr? {
      UnaryTransparent(e.operand);
    }
  }

  function StripUnary(e: Expr): (r: Expr)
    ensures !r.UnaryExpr?
    decreases e
  {
    if e.UnaryExpr? then StripUnary(e.operand) else e
  }

  /** A function argument: `self`, or a pattern with its type. */
  datatype FnArg = Receiver | Typed(pat: Pat, ty: RType)

  /** A statement of the body: a `let` with its pattern and optional initialiser, or anything else. */
  datatype Stmt = LocalStmt(pat: Pat, init: Option<Expr>) | OtherStmt

  /** A function item (name, arguments, declared return type, body), or any other item. */
  datatype Item =
    | Fn(name: string, inputs: seq<FnArg>, output: Option<RType>, body: seq<Stmt>)
    | OtherItem

  /** The `Argument` line of an argument, when it is a typed identifier. */
  function ArgLines(a: FnArg): seq<string> {
    if a.Typed? && a.pat.IdentPat? then ["Argument;" + a.pat.ident + ";" + a.ty.text] else []
  }

  function ReturnLines(output: Option<RType>): seq<string> {
    if output.Some? then ["Return;" + output.value.text] else []
  }

  /** The prefix an annotated local's type gets. */
  function KindPrefix(kind: TypeKind): string {
    match kind
    case ArrayType => "array#"
    case TupleType => "tuple#"
    case OtherType => ""
  }

  function ExprLitLines(n: nat): (r: seq<string>)
    ensures |r| == n && forall i :: 0 <= i < n ==> r[i] == "ExprLit"
  {
    seq(n, _ => "ExprLit")
  }

  /**
   * The lines a `let` produces: only with an initialiser; an identifier is typed
   * by its initialiser (after the `ExprLit` lines that prints), an annotated
   * identifier by its annotation.
   */
  function LocalLines(s: Stmt): seq<string> {
    if s.LocalStmt? && s.init.Some? then
      match s.pat
      case IdentPat(x) => ExprLitLines(Echoes(s.init.value)) + ["Local;" + x + ";" + TypeOf(s.init.value)]
      case TypedPat(IdentPat(x), ty) => ["Local;" + x + ";" + KindPrefix(ty.kind) + ty.text]
      case _ => []
    else []
  }

  function ArgsLines(inputs: seq<FnArg>): seq<string> {
    if inputs == [] then [] else ArgLines(inputs[0]) + ArgsLines(inputs[1..])
  }

  function BodyLines(body: seq<Stmt>): seq<string> {
    if body == [] then [] else LocalLines(body[0]) + BodyLines(body[1..])
  }

  /** Everything printed for one function, in the order the tool prints it. */
  function FunctionLines(f: Item): seq<string>
    requires f.Fn?
  {
    ["Function;" + f.name] + ArgsLines(f.inputs) + ReturnLines(f.output) + BodyLines(f.body)
  }

  /** Everything printed for one item: a function's lines, nothing for any other item. */
  function ItemLines(item: Item): seq<string> {
    if item.Fn? then FunctionLines(item) else []
  }

  /** Everything printed for a file: the function items' lines, in order. */
  function FileLines(items: seq<Item>): seq<string> {
    if items == [] then [] else ItemLines(items[0]) + FileLines(items[1..])
  }

  lemma {:induction false} ArgsLinesAppend(a: seq<FnArg>, b: seq<FnArg>)
    ensures ArgsLines(a + b) == ArgsLines(a) + ArgsLines(b)
    decreases |a|
  {
    if a == [] {
      assert a + b == b;
    } else {
      assert (a + b)[1..] == a[1..] + b;
      ArgsLinesAppend(a[1..], b);
    }
  }

  lemma {:induction false} BodyLinesAppend(a: seq<Stmt>, b: seq<Stmt>)
    ensures BodyLines(a + b) == BodyLines(a) + BodyLines(b)
    decreases |a|
  {
    if a == [] {
      assert a + b == b;
    } else {
      assert (a + b)[1..] == a[1..] + b;
      BodyLinesAppend(a[1..], b);
    }
  }

  lemma {:induction false} FileLinesAppend(a: seq<Item>, b: seq<Item>)
    ensures FileLines(a + b) == FileLines(a) + FileLines(b)
    decreases |a|
  {
    if a == [] {
      assert a + b == b;
    } else {
      assert (a + b)[0] == a[0];
      assert (a + b)[1..] == a[1..] + b;
      FileLinesAppend(a[1..], b);
    }
  }

  /** The report of one more item of a list is the report so far and that item's lines. */
  lemma FileLinesPrefix(items: seq<Item>, i: nat)
    requires i < |items|
    ensures FileLines(items[..i + 1]) == FileLines(items[..i]) + ItemLines(items[i])
  {
    assert items[..i + 1] == items[..i] + [items[i]];
    FileLinesAppend(items[..i], [items[i]]);
    assert FileLines([items[i]]) == ItemLines(items[i]) + FileLines([]);
  }

  /** The line kinds the tool prints besides `Function` lines. */
  predicate MemberLine(line: string) {
    StartsWith(line, "Argument;") || StartsWith(line, "Return;") || StartsWith(line, "Local;") || line == "ExprLit"
  }

  lemma {:induction false} ArgsLinesAreMembers(inputs: seq<FnArg>)
    ensures forall i :: 0 <= i < |ArgsLines(inputs)| ==> StartsWith(ArgsLines(inputs)[i], "Argument;")
    decreases |inputs|
  {
    if inputs != [] {
      ArgsLinesAreMembers(inputs[1..]);
      var head := ArgLines(inputs[0]);
      var tail := ArgsLines(inputs[1..]);
      assert ArgsLines(inputs) == head + tail;
      forall i | 0 <= i < |head + tail|
        ensures StartsWith((head + tail)[i], "Argument;")
      {
        if i >= |head| {
          assert (head + tail)[i] == tail[i - |head|];
        }
      }
    }
  }

  lemma LocalLinesAreMembers(s: Stmt)
    ensures forall i :: 0 <= i < |LocalLines(s)| ==> MemberLine(LocalLines(s)[i])
  {
  }

  lemma {:induction false} BodyLinesAreMembers(body: seq<Stmt>)
    ensures forall i :: 0 <= i < |BodyLines(body)| ==> MemberLine(BodyLines(body)[i])
    decreases |body|
  {
    if body != [] {
      BodyLinesAreMembers(body[1..]);
      LocalLinesAreMembers(body[0]);
      var head := LocalLines(body[0]);
      var tail := BodyLines(body[1..]);
      assert BodyLines(body) == head + tail;
      forall i | 0 <= i < |head + tail|
        ensures MemberLine((head + tail)[i])
      {
        if i >= |head| {
          assert (head + tail)[i] == tail[i - |head|];
        }
      }
    }
  }

  /**
   * A function's section opens with its `Function` line and holds no other:
   * every later line is an `Argument`, `Return`, `Local` or `ExprLit` line, so
   * the next `Function` line starts the next function's section.
   */
  lemma FunctionSection(f: Item)
    requires f.Fn?
    ensures FunctionLines(f)[0] == "Function;" + f.name
    ensures forall i :: 1 <= i < |FunctionLines(f)| ==> MemberLine(FunctionLines(f)[i])
  {
    ArgsLinesAreMembers(f.inputs);
    BodyLinesAreMembers(f.body);
    var a := ArgsLines(f.inputs);
    var r := ReturnLines(f.output);
    var b := BodyLines(f.body);
    MembersConcat(a, r, b);
    FunctionLinesParts(f);
    MembersAfterHead("Function;" + f.name, a + r + b);
  }

  lemma FunctionLinesParts(f: Item)
    requires f.Fn?
    ensures FunctionLines(f) == ["Function;" + f.name] + (ArgsLines(f.inputs) + ReturnLines(f.output) + BodyLines(f.body))
  {
  }

  /** Member lines after a head line are member lines from index 1 on. */
  lemma MembersAfterHead(head: string, rest: seq<string>)
    requires forall j :: 0 <= j < |rest| ==> MemberLine(rest[j])
    ensures ([head] + rest)[0] == head
    ensures forall i :: 1 <= i < |[head] + rest| ==> MemberLine(([head] + rest)[i])
  {
    forall i | 1 <= i < |[head] + rest|
      ensures MemberLine(([head] + rest)[i])
    {
      assert ([head] + rest)[i] == rest[i - 1];
    }
  }

  /** Three runs of member lines make one. */
  lemma MembersConcat(a: seq<string>, r: seq<string>, b: seq<string>)
    requires forall i :: 0 <= i < |a| ==> StartsWith(a[i], "Argument;")
    requires forall i :: 0 <= i < |r| ==> StartsWith(r[i], "Return;")
    requires forall i :: 0 <= i < |b| ==> MemberLine(b[i])
    ensures forall j :: 0 <= j < |a + r + b| ==> MemberLine((a + r + b)[j])
  {
    forall j | 0 <= j < |a + r + b|
      ensures MemberLine((a + r + b)[j])
    {
      if j < |a| {
        assert (a + r + b)[j] == a[j];
      } else if j < |a| + |r| {
        assert (a + r + b)[j] == r[j - |a|];
      } else {
        assert (a + r + b)[j] == b[j - |a| - |r|];
      }
    }
  }

  /** The loop over the arguments of one function. */
  method EmitArguments(inputs: seq<FnArg>) returns (out: seq<string>)
    ensures out == ArgsLines(inputs)
  {
    out := [];
    for i := 0 to |inputs|
      invariant out == ArgsLines(inputs[..i])
    {
      assert inputs[..i + 1] == inputs[..i] + [inputs[i]];
      ArgsLinesAppend(inputs[..i], [inputs[i]]);
      assert ArgsLines([inputs[i]]) == ArgLines(inputs[i]) + ArgsLines([]);
      match inputs[i]
      case Typed(IdentPat(x), ty) =>
        out := out + ["Argument;" + x + ";" + ty.text];
      case _ =>
    }
    assert inputs[..|inputs|] == inputs;
  }

  /** The body of the statement loop: the lines one `let` prints. */
  method EmitLocal(s: Stmt) returns (out: seq<string>)
    ensures out == LocalLines(s)
  {
    out := [];
    match s
    case LocalStmt(pat, Some(init)) =>
      match pat {
        case IdentPat(x) =>
          out := ExprLitLines(Echoes(init)) + ["Local;" + x + ";" + TypeOf(init)];
        case TypedPat(IdentPat(x), ty) =>
          out := ["Local;" + x + ";" + KindPrefix(ty.kind) + ty.text];
        case _ =>
      }
    case _ =>
  }

  /** The loop over the statements of one function body. */
  method EmitLocals(body: seq<Stmt>) returns (out: seq<string>)
    ensures out == BodyLines(body)
  {
    out := [];
    for i := 0 to |body|
      invariant out == BodyLines(body[..i])
    {
      assert body[..i + 1] == body[..i] + [body[i]];
      BodyLinesAppend(body[..i], [body[i]]);
      var lines := EmitLocal(body[i]);
      out := out + lines;
    }
    assert body[..|body|] == body;
  }

  /** The body of the item loop: a function's lines, nothing for any other item. */
  method EmitItem(item: Item) returns (out: seq<string>)
    ensures out == ItemLines(item)
  {
    out := [];
    if item.Fn? {
      var args := EmitArguments(item.inputs);
      var locals := EmitLocals(item.body);
      out := ["Function;" + item.name] + args + ReturnLines(item.output) + locals;
    }
  }

  /** The item loop of main: the printed lines, in order. */
  method EmitItems(items: seq<Item>) returns (out: seq<string>)
    ensures out == FileLines(items)
  {
    out := [];
    for i := 0 to |items|
      invariant out == FileLines(items[..i])
    {
      var lines := EmitItem(items[i]);
      FileLinesPrefix(items, i);
      out := out + lines;
    }
    assert items[..|items|] == items;
  }

  /** Why the tool stops without output: a usage error (exit 1), or a panic on reading or parsing. */
  datatype Failure = Usage | ReadPanic(reason: string) | ParsePanic(reason: string)

  /**
   * main: exactly one argument, the path; `read` and `parse` stand for the file
   * system and syn.
   */
  method DumpVarTypes(argv: seq<string>, read: string -> Result<string, string>,
                      parse: string -> Result<seq<Item>, string>)
    returns (r: Result<seq<string>, Failure>)
    ensures |argv| != 2 <==> r == Failure(Usage)
    ensures |argv| == 2 && read(argv[1]).Failure? ==> r == Failure(ReadPanic(read(argv[1]).error))
    ensures |argv| == 2 && read(argv[1]).Success? && parse(read(argv[1]).value).Failure? ==>
      r == Failure(ParsePanic(parse(read(argv[1]).value).error))
    ensures r.Success? <==> |argv| == 2 && read(argv[1]).Success? && parse(read(argv[1]).value).Success?
    ensures r.Success? ==> r.value == FileLines(parse(read(argv[1]).value).value)
  {
    if |argv| != 2 {
      return Failure(Usage);
    }
    match read(argv[1])
    case Failure(reason) =>
      r := Failure(ReadPanic(reason));
    case Success(code) =>
      match parse(code)
      case Failure(reason) =>
        r := Failure(ParsePanic(reason));
      case Success(items) =>
        var lines := EmitItems(items);
        r := Success(lines);
  }
}
