/**
 * Code fragments of the Lua subset beyond data literals: names, calls,
 * binary and `#` operations, parentheses, anonymous functions, and the
 * statements `return`, assignment, indexed assignment, `local`, `if` and
 * calls. Each fragment has a canonical text (single blanks around `=`,
 * operators and keywords, none inside argument lists) and the tree the
 * grammar is meant to build for it.
 */
module CodeText {
  import opened LuaAst
  import opened Lexer
  import opened Printer

  datatype PExpr =
    | ELit(d: DataLit)
    | EVar(path: seq<string>)
    | ECall(callee: seq<string>, args: seq<PExpr>)
    | EBinop(op: BinopKind, lhs: PExpr, rhs: PExpr)
    | ELen(operand: PExpr)
    | EParen(inner: PExpr)
    | EFun(params: seq<string>, body: seq<PStmt>)

  datatype PStmt =
    | SReturn(value: PExpr)
    | SAssign(target: seq<string>, rhs: PExpr)
    | SIndexAssign(base: seq<string>, index: PExpr, rhs: PExpr)
    | SLocal(name: string, rhs: PExpr)
    | SIf(cond: PExpr, thenBody: seq<PStmt>, elseBody: seq<PStmt>)
    | SCall(callee: seq<string>, args: seq<PExpr>)

  // ---------------------------------------------------------------------------
  // Which fragments the grammar can read back

  /**
   * A name that may start a statement or an expression: an identifier that
   * does not begin with a word some rule tries first. Keyword tokens have no
   * word-boundary check, so `returned` would read as `return ed`.
   */
  predicate IsName(w: string) {
    && IsIdentifier(w)
    && !StartsWith(w, "true") && !StartsWith(w, "false") && !StartsWith(w, "function")
    && !StartsWith(w, "return") && !StartsWith(w, "local") && !StartsWith(w, "if")
  }

  /** A dotted name whose first segment is a name and whose other segments are identifiers. */
  predicate IsPath(ws: seq<string>) {
    |ws| >= 1 && IsName(ws[0]) && AllIdentifiers(ws)
  }

  /**
   * The expression's text ends with a parenthesised expression. The
   * parenthesis rule does not skip the blanks after its `)`, so neither does
   * any rule that ends with it.
   */
  predicate OpenEnd(e: PExpr) {
    match e
    case EParen(_) => true
    case EBinop(_, _, r) => OpenEnd(r)
    case ELen(x) => OpenEnd(x)
    case _ => false
  }

  /**
   * Fragments whose text reads back: printable literals, paths of names,
   * left operands that are values, functions with a body, and no
   * parenthesised expression right before ` then` or at the end of an
   * assignment, where the blank left after `)` would stop the statement.
   */
  predicate ReadableExpr(e: PExpr) {
    match e
    case ELit(d) => Printable(d)
    case EVar(ws) => IsPath(ws)
    case ECall(ws, args) => IsPath(ws) && ReadableExprs(args)
    case EBinop(_, l, r) => (l.ELit? || l.EVar?) && ReadableExpr(l) && ReadableExpr(r)
    case ELen(x) => ReadableExpr(x)
    case EParen(x) => ReadableExpr(x)
    case EFun(ps, body) => AllIdentifiers(ps) && |body| >= 1 && ReadableStmts(body)
  }

  predicate ReadableExprs(es: seq<PExpr>) {
    es == [] || (ReadableExpr(es[0]) && ReadableExprs(es[1..]))
  }

  predicate ReadableStmt(s: PStmt) {
    match s
    case SReturn(e) => ReadableExpr(e)
    case SAssign(ws, e) => IsPath(ws) && ReadableExpr(e) && !OpenEnd(e)
    case SIndexAssign(ws, i, e) => IsPath(ws) && ReadableExpr(i) && ReadableExpr(e) && !OpenEnd(e)
    case SLocal(k, e) => IsIdentifier(k) && ReadableExpr(e)
    case SIf(c, a, b) => ReadableExpr(c) && !OpenEnd(c) && |a| >= 1 && ReadableStmts(a) && ReadableStmts(b)
    case SCall(ws, args) => IsPath(ws) && ReadableExprs(args)
  }

  predicate ReadableStmts(ss: seq<PStmt>) {
    ss == [] || (ReadableStmt(ss[0]) && ReadableStmts(ss[1..]))
  }

  // ---------------------------------------------------------------------------
  // Text

  function PathText(ws: seq<string>): string {
    if ws == [] then "" else DottedText(ws)
  }

  function OpText(op: BinopKind): string {
    match op
    case Plus => "+"
    case Minus => "-"
    case Times => "*"
    case Divide => "/"
    case DotDot => ".."
    case EqEq => "=="
    case TildeEq => "~="
  }

  function ExprText(e: PExpr): string
    decreases e, 1
  {
    match e
    case ELit(d) => Print(d)
    case EVar(ws) => PathText(ws)
    case ECall(ws, args) => PathText(ws) + "(" + ArgsText(args) + ")"
    case EBinop(op, l, r) => ExprText(l) + " " + OpText(op) + " " + ExprText(r)
    case ELen(x) => "#" + ExprText(x)
    case EParen(x) => "(" + ExprText(x) + ")"
    case EFun(ps, body) => "function" + RestText(ps, body)
  }

  /** What follows `function` and the name, if any: parameters, body, `end`. */
  function RestText(ps: seq<string>, body: seq<PStmt>): string
    decreases body, 2
  {
    "(" + ListText(ps) + ") " + StmtsText(body) + " end"
  }

  /** Arguments joined by `,`. */
  function ArgsText(es: seq<PExpr>): string
    decreases es, 1
  {
    if es == [] then "" else ExprText(es[0]) + ArgTail(es[1..])
  }

  /** Each argument preceded by `,`. */
  function ArgTail(es: seq<PExpr>): string
    decreases es, 0
  {
    if es == [] then "" else "," + ExprText(es[0]) + ArgTail(es[1..])
  }

  function StmtText(s: PStmt): string
    decreases s, 1
  {
    match s
    case SReturn(e) => "return " + ExprText(e)
    case SAssign(ws, e) => PathText(ws) + " = " + ExprText(e)
    case SIndexAssign(ws, i, e) => PathText(ws) + "[" + ExprText(i) + "] = " + ExprText(e)
    case SLocal(k, e) => "local " + k + " = " + ExprText(e)
    case SIf(c, a, b) => "if " + ExprText(c) + " then " + StmtsText(a) + ElseText(b) + " end"
    case SCall(ws, args) => PathText(ws) + "(" + ArgsText(args) + ")"
  }

  /** The `else` branch, written only when it has statements. */
  function ElseText(b: seq<PStmt>): string
    decreases b, 2
  {
    if b == [] then "" else " else " + StmtsText(b)
  }

  /** Statements joined by one blank. */
  function StmtsText(ss: seq<PStmt>): string
    decreases ss, 1
  {
    if ss == [] then "" else StmtText(ss[0]) + StmtTail(ss[1..])
  }

  /** Each statement preceded by one blank. */
  function StmtTail(ss: seq<PStmt>): string
    decreases ss, 0
  {
    if ss == [] then "" else " " + StmtText(ss[0]) + StmtTail(ss[1..])
  }

  // ---------------------------------------------------------------------------
  // Trees

  /**
   * The tree for a fragment. A name in value position is a variable
   * reference inside a literal, a literal is wrapped as the value rule wraps
   * it, and parentheses leave no node.
   */
  function ToExpr(e: PExpr): LuaExpr
    decreases e, 1
  {
    match e
    case ELit(d) => Literal(AsParsed(d))
    case EVar(ws) => Literal(LuaObject.Expr(Var(ws)))
    case ECall(ws, args) => Funcall(ws, ToExprs(args))
    case EBinop(op, l, r) => Binop(op, ToExpr(l), ToExpr(r))
    case ELen(x) => Unop(Octothorpe, ToExpr(x))
    case EParen(x) => ToExpr(x)
    case EFun(ps, body) => Fundef(LuaFunction(ps, ToStmts(body)))
  }

  function ToExprs(es: seq<PExpr>): (r: seq<LuaExpr>)
    ensures |r| == |es|
    decreases es, 0
  {
    if es == [] then [] else [ToExpr(es[0])] + ToExprs(es[1..])
  }

  /** The tree for a statement; `local k = e` is an assignment to the one-segment name `k`. */
  function ToStmt(s: PStmt): LuaStmt
    decreases s, 1
  {
    match s
    case SReturn(e) => Return(ToExpr(e))
    case SAssign(ws, e) => Assign(Dotted(ws), ToExpr(e))
    case SIndexAssign(ws, i, e) => Assign(Subscript(Dotted(ws), ToExpr(i)), ToExpr(e))
    case SLocal(k, e) => Assign(Dotted([k]), ToExpr(e))
    case SIf(c, a, b) => IfThen(ToExpr(c), ToStmts(a), ToStmts(b))
    case SCall(ws, args) => LuaStmt.Expr(Funcall(ws, ToExprs(args)))
  }

  function ToStmts(ss: seq<PStmt>): (r: seq<LuaStmt>)
    ensures |r| == |ss|
    decreases ss, 0
  {
    if ss == [] then [] else [ToStmt(ss[0])] + ToStmts(ss[1..])
  }

  // ---------------------------------------------------------------------------
  // The text, split where the grammar splits it

  /** A word between two blanks, regrouped to the right. */
  lemma Padded(kw: string, x: string)
    ensures ((" " + kw) + " ") + x == " " + (kw + (" " + x))
  {
    Regroup(" " + kw, " ", x);
    Regroup(" ", kw, " " + x);
  }

  /** ` = ` followed by `x`, regrouped to the right. */
  lemma EqualsText(x: string)
    ensures " = " + x == " " + ("=" + (" " + x))
  {
    assert " = " == (" " + "=") + " ";
    Padded("=", x);
  }

  lemma CallText(ws: seq<string>, args: seq<PExpr>, t: string)
    ensures ExprText(ECall(ws, args)) + t == PathText(ws) + ("(" + (ArgsText(args) + (")" + t)))
    ensures StmtText(SCall(ws, args)) == ExprText(ECall(ws, args))
  {
    var p, a := PathText(ws), ArgsText(args);
    Regroup((p + "(") + a, ")", t);
    Regroup(p + "(", a, ")" + t);
    Regroup(p, "(", a + (")" + t));
  }

  lemma BinopText(op: BinopKind, l: PExpr, r: PExpr, t: string)
    ensures ExprText(EBinop(op, l, r)) + t == ExprText(l) + (" " + (OpText(op) + (" " + (ExprText(r) + t))))
  {
    var x, o, y := ExprText(l), OpText(op), ExprText(r);
    Regroup(((x + " ") + o) + " ", y, t);
    Regroup((x + " ") + o, " ", y + t);
    Regroup(x + " ", o, " " + (y + t));
    Regroup(x, " ", o + (" " + (y + t)));
  }

  lemma LenText(x: PExpr, t: string)
    ensures ExprText(ELen(x)) + t == "#" + (ExprText(x) + t)
  {
    Regroup("#", ExprText(x), t);
  }

  lemma ParenText(x: PExpr, t: string)
    ensures ExprText(EParen(x)) + t == "(" + (ExprText(x) + (")" + t))
  {
    Regroup("(" + ExprText(x), ")", t);
    Regroup("(", ExprText(x), ")" + t);
  }

  lemma FunText(ps: seq<string>, body: seq<PStmt>, t: string)
    ensures ExprText(EFun(ps, body)) + t == "function" + (RestText(ps, body) + t)
  {
    Regroup("function", RestText(ps, body), t);
  }

  lemma RestTextSplit(ps: seq<string>, body: seq<PStmt>, t: string)
    ensures RestText(ps, body) + t == "(" + (ListText(ps) + (")" + (" " + (StmtsText(body) + (" end" + t)))))
  {
    var l, b := ListText(ps), StmtsText(body);
    var y := b + (" end" + t);
    Regroup((("(" + l) + ") ") + b, " end", t);
    Regroup(("(" + l) + ") ", b, " end" + t);
    Regroup("(" + l, ") ", y);
    Regroup("(", l, ") " + y);
    assert ") " == ")" + " ";
    Regroup(")", " ", y);
  }

  lemma ArgsTextCons(es: seq<PExpr>, t: string)
    requires es != []
    ensures ArgsText(es) + t == ExprText(es[0]) + (ArgTail(es[1..]) + t)
  {
    Regroup(ExprText(es[0]), ArgTail(es[1..]), t);
  }

  lemma ArgTailCons(es: seq<PExpr>, t: string)
    requires es != []
    ensures ArgTail(es) + t == "," + (ExprText(es[0]) + (ArgTail(es[1..]) + t))
  {
    var x, y := ExprText(es[0]), ArgTail(es[1..]);
    Regroup("," + x, y, t);
    Regroup(",", x, y + t);
  }

  lemma ReturnText(e: PExpr, t: string)
    ensures StmtText(SReturn(e)) + t == "return" + (" " + (ExprText(e) + t))
  {
    var x := ExprText(e);
    Regroup("return ", x, t);
    assert "return " == "return" + " ";
    Regroup("return", " ", x + t);
  }

  lemma AssignText(ws: seq<string>, e: PExpr, t: string)
    ensures StmtText(SAssign(ws, e)) + t == PathText(ws) + (" " + ("=" + (" " + (ExprText(e) + t))))
  {
    var p, x := PathText(ws), ExprText(e);
    Regroup(p + " = ", x, t);
    Regroup(p, " = ", x + t);
    EqualsText(x + t);
  }

  lemma IndexAssignText(ws: seq<string>, i: PExpr, e: PExpr, t: string)
    ensures StmtText(SIndexAssign(ws, i, e)) + t
         == PathText(ws) + ("[" + (ExprText(i) + ("]" + (" " + ("=" + (" " + (ExprText(e) + t)))))))
  {
    var p, j, x := PathText(ws), ExprText(i), ExprText(e);
    var y := x + t;
    Regroup(((p + "[") + j) + "] = ", x, t);
    Regroup((p + "[") + j, "] = ", y);
    Regroup(p + "[", j, "] = " + y);
    Regroup(p, "[", j + ("] = " + y));
    assert "] = " == "]" + " = ";
    Regroup("]", " = ", y);
    EqualsText(y);
  }

  lemma LocalText(k: string, e: PExpr, t: string)
    ensures StmtText(SLocal(k, e)) + t == "local" + (" " + (k + (" " + ("=" + (" " + (ExprText(e) + t))))))
  {
    var x := ExprText(e);
    var y := x + t;
    Regroup(("local " + k) + " = ", x, t);
    Regroup("local " + k, " = ", y);
    Regroup("local ", k, " = " + y);
    assert "local " == "local" + " ";
    Regroup("local", " ", k + (" = " + y));
    EqualsText(y);
  }

  lemma IfText(c: PExpr, a: seq<PStmt>, b: seq<PStmt>, t: string)
    ensures StmtText(SIf(c, a, b)) + t
         == "if" + (" " + (ExprText(c) + (" " + ("then" + (" " + (StmtsText(a) + (ElseText(b) + (" end" + t))))))))
  {
    var x, y, z := ExprText(c), StmtsText(a), ElseText(b);
    var w := y + (z + (" end" + t));
    Regroup(((("if " + x) + " then ") + y) + z, " end", t);
    Regroup((("if " + x) + " then ") + y, z, " end" + t);
    Regroup(("if " + x) + " then ", y, z + (" end" + t));
    Regroup("if " + x, " then ", w);
    Regroup("if ", x, " then " + w);
    assert "if " == "if" + " ";
    Regroup("if", " ", x + (" then " + w));
    assert " then " == (" " + "then") + " ";
    Padded("then", w);
  }

  lemma ElseTextCons(b: seq<PStmt>, t: string)
    requires b != []
    ensures ElseText(b) + t == " " + ("else" + (" " + (StmtsText(b) + t)))
  {
    var y := StmtsText(b);
    Regroup(" else ", y, t);
    assert " else " == (" " + "else") + " ";
    Padded("else", y + t);
  }

  lemma StmtsTextCons(ss: seq<PStmt>, t: string)
    requires ss != []
    ensures StmtsText(ss) + t == StmtText(ss[0]) + (StmtTail(ss[1..]) + t)
  {
    Regroup(StmtText(ss[0]), StmtTail(ss[1..]), t);
  }

  lemma StmtTailCons(ss: seq<PStmt>, t: string)
    requires ss != []
    ensures StmtTail(ss) + t == " " + (StmtText(ss[0]) + (StmtTail(ss[1..]) + t))
  {
    var x, y := StmtText(ss[0]), StmtTail(ss[1..]);
    Regroup(" " + x, y, t);
    Regroup(" ", x, y + t);
  }
}
