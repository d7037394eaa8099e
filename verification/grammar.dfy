/**
 * The backtracking recursive-descent grammar of the Lua subset: composite
 * literals, expressions, assignment targets, statements and function
 * definitions. Each rule maps its input to `NoParse` or to a value and the
 * unconsumed suffix; an alternation returns the first alternative that
 * succeeds, every alternative starting from the same input.
 *
 * Every rule either consumes input before recursing or calls a rule of lower
 * rank on the same input, so the rules terminate by `|s|` and then by rank.
 */
module Grammar {
  import opened LuaAst
  import opened Lexer

  /** The text left by an optional `,` separator. */
  function OptCommaspace(s: string): (r: string)
    ensures |r| <= |s|
  {
    match Commaspace(s)
    case NoParse => s
    case Parsed(_, rest) => rest
  }

  /** Wraps each expression as a value, as array elements are stored. */
  function WrapAll(es: seq<LuaExpr>): (r: seq<LuaObject>)
    ensures |r| == |es|
    ensures forall i :: 0 <= i < |es| ==> r[i] == LuaObject.Expr(es[i])
  {
    seq(|es|, i requires 0 <= i < |es| => LuaObject.Expr(es[i]))
  }

  /**
   * The map a field list builds: each key is bound to the value of its LAST
   * occurrence, as collecting into a hash map does.
   */
  function FieldsToMap(fs: seq<(string, LuaObject)>): (m: map<string, LuaObject>)
    ensures m.Keys == set f | f in fs :: f.0
    ensures forall i :: 0 <= i < |fs| && (forall j :: i < j < |fs| ==> fs[j].0 != fs[i].0) ==> m[fs[i].0] == fs[i].1
  {
    if fs == [] then map[]
    else
      var init := fs[..|fs| - 1];
      var last := fs[|fs| - 1];
      KeysOfSnoc(fs);
      assert forall i :: 0 <= i < |init| ==> init[i] == fs[i];
      FieldsToMap(init)[last.0 := last.1]
  }

  /** The names of a field list are those of all but its last field, plus the last one's. */
  lemma KeysOfSnoc(fs: seq<(string, LuaObject)>)
    requires fs != []
    ensures (set f | f in fs :: f.0) == (set f | f in fs[..|fs| - 1] :: f.0) + {fs[|fs| - 1].0}
  {
    assert fs == fs[..|fs| - 1] + [fs[|fs| - 1]];
  }

  function ParseBinopKind(s: string): (r: ParseResult<BinopKind>)
    ensures Advances(s, r)
  {
    if StartsWith(s, "+") then Parsed(Plus, s[1..])
    else if StartsWith(s, "-") then Parsed(Minus, s[1..])
    else if StartsWith(s, "*") then Parsed(Times, s[1..])
    else if StartsWith(s, "/") then Parsed(Divide, s[1..])
    else if StartsWith(s, "..") then Parsed(DotDot, s[2..])
    else if StartsWith(s, "==") then Parsed(EqEq, s[2..])
    else if StartsWith(s, "~=") then Parsed(TildeEq, s[2..])
    else NoParse
  }

  /** The placeholder body rule; it never matches. */
  function ParseUnhandledBody(s: string): ParseResult<LuaStmt> {
    NoParse
  }

  // ---------------------------------------------------------------------------
  // Values

  /**
   * A value literal, alternatives in order: numeral, boolean, string, array,
   * map, and a dotted name kept as a variable reference.
   */
  function ParseObject(s: string): (r: ParseResult<LuaObject>)
    ensures Advances(s, r)
    ensures r.Parsed? && r.value.Expr? ==> r.value.expr.Var?
    decreases |s|, 3
  {
    var num := ParseNum(s);
    if num.Parsed? then num else
    var boolean := ParseBool(s);
    if boolean.Parsed? then boolean else
    var str := ParseStr(s);
    if str.Parsed? then str else
    var arr := ParseArray(s);
    if arr.Parsed? then arr else
    var table := ParseMap(s);
    if table.Parsed? then table else
    match ParseNamespaced(s)
    case NoParse => NoParse
    case Parsed(path, rest) => Parsed(LuaObject.Expr(Var(path)), rest)
  }

  /**
   * `{` one or more `,`-separated expressions, an optional trailing `,`, `}`.
   * Each element is kept as an `Expr` value.
   */
  function ParseArray(s: string): (r: ParseResult<LuaObject>)
    ensures Advances(s, r)
    ensures r.Parsed? ==> r.value.Array? && |r.value.items| >= 1
    ensures r.Parsed? ==> forall i :: 0 <= i < |r.value.items| ==> r.value.items[i].Expr?
    decreases |s|, 1
  {
    if !StartsWith(s, "{") then NoParse else
    match ParseExprList1(Whitespace(s[1..]))
    case NoParse => NoParse
    case Parsed(es, s1) =>
      var s2 := OptCommaspace(Whitespace(s1));
      if !StartsWith(s2, "}") then NoParse else
      Parsed(Array(WrapAll(es)), Whitespace(s2[1..]))
  }

  /** `{` zero or more `,`-separated `name = value` fields, an optional trailing `,`, `}`. */
  function ParseMap(s: string): (r: ParseResult<LuaObject>)
    ensures Advances(s, r)
    ensures r.Parsed? ==> r.value.Map?
    decreases |s|, 2
  {
    if !StartsWith(s, "{") then NoParse else
    var (fields, s1) := ParseFieldList(Whitespace(s[1..]));
    var s2 := OptCommaspace(Whitespace(s1));
    if !StartsWith(s2, "}") then NoParse else
    Parsed(Map(FieldsToMap(fields)), Whitespace(s2[1..]))
  }

  /**
   * `name = value`. The value is tried as an expression (and then wrapped as
   * `Expr`) before it is tried as a plain value.
   */
  function ParseField(s: string): (r: ParseResult<(string, LuaObject)>)
    ensures Advances(s, r)
    ensures r.Parsed? ==> IsIdentifier(r.value.0)
    decreases |s|, 0
  {
    match ParseIdentifier(s)
    case NoParse => NoParse
    case Parsed(name, s1) =>
      var s2 := Whitespace(s1);
      if !StartsWith(s2, "=") then NoParse else
      var s3 := Whitespace(s2[1..]);
      match ParseExpr(s3)
      case Parsed(e, s4) => Parsed((name, LuaObject.Expr(e)), s4)
      case NoParse =>
        match ParseObject(s3)
        case NoParse => NoParse
        case Parsed(o, s4) => Parsed((name, o), s4)
  }

  /** Zero or more fields separated by `,`; never fails. */
  function ParseFieldList(s: string): (r: (seq<(string, LuaObject)>, string))
    ensures |r.1| <= |s|
    decreases |s|, 1
  {
    match ParseField(s)
    case NoParse => ([], s)
    case Parsed(f, s1) =>
      var (fs, s2) := FieldTail(s1);
      ([f] + fs, s2)
  }

  /** The fields after the first; a `,` not followed by a field is left unconsumed. */
  function FieldTail(s: string): (r: (seq<(string, LuaObject)>, string))
    ensures |r.1| <= |s|
    decreases |s|, 0
  {
    match Commaspace(s)
    case NoParse => ([], s)
    case Parsed(_, s1) =>
      match ParseField(s1)
      case NoParse => ([], s)
      case Parsed(f, s2) =>
        var (fs, s3) := FieldTail(s2);
        ([f] + fs, s3)
  }

  // ---------------------------------------------------------------------------
  // Expressions

  /**
   * An expression, alternatives in order: anonymous function, call, binary
   * operation, `#` operation, parenthesised expression, plain value.
   */
  function ParseExpr(s: string): (r: ParseResult<LuaExpr>)
    ensures Advances(s, r)
    decreases |s|, 6
  {
    var fn := ParseAnonFunction(s);
    if fn.Parsed? then Parsed(Fundef(fn.value), fn.rest) else
    var call := ParseFuncall(s);
    if call.Parsed? then call else
    var binop := ParseBinop(s);
    if binop.Parsed? then binop else
    var unop := ParseUnop(s);
    if unop.Parsed? then unop else
    var paren := ParseParen(s);
    if paren.Parsed? then paren else
    match ParseObject(s)
    case NoParse => NoParse
    case Parsed(o, rest) => Parsed(Literal(o), rest)
  }

  /** One or more expressions separated by `,`. */
  function ParseExprList1(s: string): (r: ParseResult<seq<LuaExpr>>)
    ensures Advances(s, r)
    ensures r.Parsed? ==> |r.value| >= 1
    decreases |s|, 7
  {
    match ParseExpr(s)
    case NoParse => NoParse
    case Parsed(e, s1) =>
      var (es, s2) := ExprTail(s1);
      Parsed([e] + es, s2)
  }

  /** Zero or more expressions separated by `,`; never fails. */
  function ParseExprList0(s: string): (r: (seq<LuaExpr>, string))
    ensures |r.1| <= |s|
    decreases |s|, 7
  {
    match ParseExpr(s)
    case NoParse => ([], s)
    case Parsed(e, s1) =>
      var (es, s2) := ExprTail(s1);
      ([e] + es, s2)
  }

  /** The expressions after the first; a `,` not followed by an expression is left unconsumed. */
  function ExprTail(s: string): (r: (seq<LuaExpr>, string))
    ensures |r.1| <= |s|
    decreases |s|, 0
  {
    match Commaspace(s)
    case NoParse => ([], s)
    case Parsed(_, s1) =>
      match ParseExpr(s1)
      case NoParse => ([], s)
      case Parsed(e, s2) =>
        var (es, s3) := ExprTail(s2);
        ([e] + es, s3)
  }

  /** A dotted name, then `(`, zero or more `,`-separated arguments, `)`. */
  function ParseFuncall(s: string): (r: ParseResult<LuaExpr>)
    ensures Advances(s, r)
    ensures r.Parsed? ==> r.value.Funcall? && |r.value.callee| >= 1
    decreases |s|, 4
  {
    match ParseNamespaced(s)
    case NoParse => NoParse
    case Parsed(path, s1) =>
      var s2 := Whitespace(s1);
      if !StartsWith(s2, "(") then NoParse else
      var (args, s3) := ParseExprList0(Whitespace(s2[1..]));
      if !StartsWith(s3, ")") then NoParse else
      Parsed(Funcall(path, args), Whitespace(s3[1..]))
  }

  /**
   * A value as the left operand, an operator, then a whole expression as the
   * right operand: chains group to the right and there are no precedence levels.
   */
  function ParseBinop(s: string): (r: ParseResult<LuaExpr>)
    ensures Advances(s, r)
    ensures r.Parsed? ==> r.value.Binop? && r.value.lhs.Literal?
    decreases |s|, 4
  {
    match ParseObject(s)
    case NoParse => NoParse
    case Parsed(lhs, s1) =>
      match ParseBinopKind(s1)
      case NoParse => NoParse
      case Parsed(op, s2) =>
        match ParseExpr(Whitespace(s2))
        case NoParse => NoParse
        case Parsed(rhs, s3) => Parsed(Binop(op, Literal(lhs), rhs), s3)
  }

  /** `#` then an expression. */
  function ParseUnop(s: string): (r: ParseResult<LuaExpr>)
    ensures Advances(s, r)
    decreases |s|, 4
  {
    if !StartsWith(s, "#") then NoParse else
    match ParseExpr(Whitespace(s[1..]))
    case NoParse => NoParse
    case Parsed(e, rest) => Parsed(Unop(Octothorpe, e), rest)
  }

  /** `(` expression `)`; the text after `)` is not skipped. */
  function ParseParen(s: string): (r: ParseResult<LuaExpr>)
    ensures Advances(s, r)
    decreases |s|, 4
  {
    if !StartsWith(s, "(") then NoParse else
    match ParseExpr(Whitespace(s[1..]))
    case NoParse => NoParse
    case Parsed(e, s1) =>
      if !StartsWith(s1, ")") then NoParse else Parsed(e, s1[1..])
  }

  // ---------------------------------------------------------------------------
  // Functions

  /**
   * What follows the name position of a function definition: `(`, zero or
   * more `,`-separated parameter names, `)`, one or more statements, `end`.
   */
  function ParseFunctionRest(s: string): (r: ParseResult<LuaFunction>)
    ensures Advances(s, r)
    ensures r.Parsed? ==> AllIdentifiers(r.value.params) && |r.value.body| >= 1
    decreases |s|, 0
  {
    if !StartsWith(s, "(") then NoParse else
    var (params, s1) := ParseIdentList(Whitespace(s[1..]));
    if !StartsWith(s1, ")") then NoParse else
    var s2 := Whitespace(s1[1..]);
    var stmts := ParseStmtList1(s2);
    var body := if stmts.Parsed? then stmts else
      match ParseUnhandledBody(s2)
      case NoParse => NoParse
      case Parsed(st, rest) => Parsed([st], rest);
    match body
    case NoParse => NoParse
    case Parsed(sts, s3) =>
      if !StartsWith(s3, "end") then NoParse else
      Parsed(LuaFunction(params, sts), Whitespace(s3[3..]))
  }

  /** `function` with nothing in the name position. */
  function ParseAnonFunction(s: string): (r: ParseResult<LuaFunction>)
    ensures Advances(s, r)
    decreases |s|, 5
  {
    if !StartsWith(s, "function") then NoParse else
    ParseFunctionRest(Whitespace(s[8..]))
  }

  /** `function` with an identifier in the name position. */
  function ParseNamedFunction(s: string): (r: ParseResult<(string, LuaFunction)>)
    ensures Advances(s, r)
    ensures r.Parsed? ==> IsIdentifier(r.value.0)
    decreases |s|, 0
  {
    if !StartsWith(s, "function") then NoParse else
    match ParseIdentifier(Whitespace(s[8..]))
    case NoParse => NoParse
    case Parsed(name, s1) =>
      match ParseFunctionRest(Whitespace(s1))
      case NoParse => NoParse
      case Parsed(fn, rest) => Parsed((name, fn), rest)
  }

  // ---------------------------------------------------------------------------
  // Assignment targets

  /**
   * `base[index]`: the text before the FIRST `[` of the whole remaining input
   * is parsed on its own as the base target, which must use all of it; then
   * one bracketed index expression.
   */
  function ParseSubscript(s: string): (r: ParseResult<(LValue, LuaExpr)>)
    ensures Advances(s, r)
    decreases |s|, 1
  {
    var idx := FindChar(s, '[');
    if idx == |s| then NoParse else
    match ParseLValue(s[..idx])
    case NoParse => NoParse
    case Parsed(base, pre) => IndexAfter(base, s[idx - |pre|..])
  }

  /** The bracketed index that follows the base of a subscript target. */
  function IndexAfter(base: LValue, at: string): (r: ParseResult<(LValue, LuaExpr)>)
    ensures Advances(at, r)
    ensures r.Parsed? ==> r.value.0 == base
    decreases |at|, 0
  {
    if !StartsWith(at, "[") then NoParse else
    match ParseExpr(at[1..])
    case NoParse => NoParse
    case Parsed(index, s1) =>
      if !StartsWith(s1, "]") then NoParse else
      Parsed((base, index), Whitespace(s1[1..]))
  }

  /** A subscript target, else a dotted name. */
  function ParseLValue(s: string): (r: ParseResult<LValue>)
    ensures Advances(s, r)
    decreases |s|, 2
  {
    match ParseSubscript(s)
    case Parsed((base, index), rest) => Parsed(Subscript(base, index), rest)
    case NoParse =>
      match ParseNamespaced(s)
      case NoParse => NoParse
      case Parsed(path, rest) => Parsed(Dotted(path), rest)
  }

  // ---------------------------------------------------------------------------
  // Statements

  /** `return` expression. */
  function ParseReturn(s: string): (r: ParseResult<LuaStmt>)
    ensures Advances(s, r)
    decreases |s|, 8
  {
    if !StartsWith(s, "return") then NoParse else
    match ParseExpr(Whitespace(s[6..]))
    case NoParse => NoParse
    case Parsed(e, rest) => Parsed(Return(e), Whitespace(rest))
  }

  /** target `=` expression. */
  function ParseAssign(s: string): (r: ParseResult<LuaStmt>)
    ensures Advances(s, r)
    decreases |s|, 8
  {
    match ParseLValue(s)
    case NoParse => NoParse
    case Parsed(target, s1) =>
      var s2 := Whitespace(s1);
      if !StartsWith(s2, "=") then NoParse else
      match ParseExpr(Whitespace(s2[1..]))
      case NoParse => NoParse
      case Parsed(e, rest) => Parsed(Assign(target, e), rest)
  }

  /** `local` name `=` expression, giving the name and the expression. */
  function ParseLocal(s: string): (r: ParseResult<(string, LuaExpr)>)
    ensures Advances(s, r)
    ensures r.Parsed? ==> IsIdentifier(r.value.0)
    decreases |s|, 8
  {
    if !StartsWith(s, "local") then NoParse else
    match ParseIdentifier(Whitespace(s[5..]))
    case NoParse => NoParse
    case Parsed(name, s1) =>
      var s2 := Whitespace(s1);
      if !StartsWith(s2, "=") then NoParse else
      match ParseExpr(Whitespace(s2[1..]))
      case NoParse => NoParse
      case Parsed(e, rest) => Parsed((name, e), Whitespace(rest))
  }

  /**
   * `if` condition `then` statements, then either `else` statements `end` or
   * just `end`; a missing `else` gives an empty else-branch.
   */
  function ParseIfThen(s: string): (r: ParseResult<LuaStmt>)
    ensures Advances(s, r)
    ensures r.Parsed? ==> r.value.IfThen? && |r.value.thenBody| >= 1
    decreases |s|, 8
  {
    if !StartsWith(s, "if") then NoParse else
    match ParseExpr(Whitespace(s[2..]))
    case NoParse => NoParse
    case Parsed(cond, s1) =>
      if !StartsWith(s1, "then") then NoParse else
      match ParseStmtList1(Whitespace(s1[4..]))
      case NoParse => NoParse
      case Parsed(thenBody, s2) =>
        var elseBranch :=
          if !StartsWith(s2, "else") then NoParse else
          match ParseStmtList1(Whitespace(s2[4..]))
          case NoParse => NoParse
          case Parsed(elseBody, s3) =>
            if !StartsWith(s3, "end") then NoParse else Parsed(elseBody, s3[3..]);
        match elseBranch
        case Parsed(elseBody, s3) => Parsed(IfThen(cond, thenBody, elseBody), Whitespace(s3))
        case NoParse =>
          if !StartsWith(s2, "end") then NoParse else
          Parsed(IfThen(cond, thenBody, []), Whitespace(s2[3..]))
  }

  /**
   * A statement, alternatives in order: `return`, assignment, `local` binding
   * (stored as an assignment to a one-segment name), `if`, bare expression.
   */
  function ParseStmt(s: string): (r: ParseResult<LuaStmt>)
    ensures Advances(s, r)
    decreases |s|, 9
  {
    var ret := ParseReturn(s);
    if ret.Parsed? then ret else
    var assign := ParseAssign(s);
    if assign.Parsed? then assign else
    var local := ParseLocal(s);
    if local.Parsed? then Parsed(Assign(Dotted([local.value.0]), local.value.1), local.rest) else
    var ifThen := ParseIfThen(s);
    if ifThen.Parsed? then ifThen else
    match ParseExpr(s)
    case NoParse => NoParse
    case Parsed(e, rest) => Parsed(LuaStmt.Expr(e), rest)
  }

  /** One or more statements. */
  function ParseStmtList1(s: string): (r: ParseResult<seq<LuaStmt>>)
    ensures Advances(s, r)
    ensures r.Parsed? ==> |r.value| >= 1
    decreases |s|, 10
  {
    match ParseStmt(s)
    case NoParse => NoParse
    case Parsed(st, s1) =>
      var (sts, s2) := StmtMany(s1);
      Parsed([st] + sts, s2)
  }

  /** Zero or more statements; never fails. */
  function StmtMany(s: string): (r: (seq<LuaStmt>, string))
    ensures |r.1| <= |s|
    decreases |s|, 10
  {
    match ParseStmt(s)
    case NoParse => ([], s)
    case Parsed(st, s1) =>
      var (sts, s2) := StmtMany(s1);
      ([st] + sts, s2)
  }
}
