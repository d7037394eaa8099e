/**
 * The trees produced by the Lua-subset parser: dynamic values (`LuaObject`),
 * expressions, assignment targets, statements and function definitions, and the
 * `Simplify` rewrite that collapses `Expr(Literal(x))` wrappers.
 */
module LuaAst {

  /**
   * A parsed literal. `Float` keeps the numeral text: floating-point values are
   * not interpreted in this model. `Int` holds values inside the signed 64-bit range,
   * which is the only way the parser builds one.
   */
  datatype LuaObject =
    | Map(fields: map<string, LuaObject>)
    | Array(items: seq<LuaObject>)
    | Bool(b: bool)
    | Str(s: string)
    | Int(i: int)
    | Float(text: string)
    | Expr(expr: LuaExpr)

  datatype UnopKind = Octothorpe

  datatype BinopKind = Plus | Minus | Times | Divide | DotDot | EqEq | TildeEq

  datatype LuaExpr =
    | Var(path: seq<string>)
    | Literal(obj: LuaObject)
    | Funcall(callee: seq<string>, args: seq<LuaExpr>)
    | Fundef(fn: LuaFunction)
    | Unop(uop: UnopKind, operand: LuaExpr)
    | Binop(bop: BinopKind, lhs: LuaExpr, rhs: LuaExpr)

  /** Assignment targets: `a.b.c` and `base[index]`. */
  datatype LValue =
    | Dotted(path: seq<string>)
    | Subscript(base: LValue, index: LuaExpr)

  datatype LuaStmt =
    | Return(value: LuaExpr)
    | Assign(target: LValue, rhs: LuaExpr)
    | IfThen(cond: LuaExpr, thenBody: seq<LuaStmt>, elseBody: seq<LuaStmt>)
    | Expr(e: LuaExpr)

  datatype LuaFunction = LuaFunction(params: seq<string>, body: seq<LuaStmt>)

  /**
   * True when no `Expr(Literal(_))` node is left in the value part of the tree:
   * every `Expr` that remains wraps a genuinely dynamic expression.
   */
  predicate IsSimplified(o: LuaObject) {
    match o
    case Map(m) => forall k :: k in m ==> IsSimplified(m[k])
    case Array(a) => forall i :: 0 <= i < |a| ==> IsSimplified(a[i])
    case Expr(e) => !e.Literal?
    case _ => true
  }

  /**
   * Replaces every `Expr(Literal(x))` by the simplified `x`, recursing into map
   * values and array elements; other expressions and scalars stay as they are.
   */
  function Simplify(o: LuaObject): (r: LuaObject)
    ensures IsSimplified(r)
    ensures IsSimplified(o) ==> r == o
    ensures o.Map? ==> r.Map? && r.fields.Keys == o.fields.Keys
    ensures o.Map? ==> forall k :: k in o.fields ==> r.fields[k] == Simplify(o.fields[k])
    ensures o.Array? ==> r.Array? && |r.items| == |o.items|
    ensures o.Array? ==> forall i :: 0 <= i < |o.items| ==> r.items[i] == Simplify(o.items[i])
    ensures o.Expr? && o.expr.Literal? ==> r == Simplify(o.expr.obj)
  {
    match o
    case Map(m) =>
      var m' := map k | k in m :: Simplify(m[k]);
      assert IsSimplified(o) ==> m' == m;
      Map(m')
    case Array(a) =>
      var a' := seq(|a|, i requires 0 <= i < |a| => Simplify(a[i]));
      assert IsSimplified(o) ==> a' == a;
      Array(a')
    case Expr(e) => if e.Literal? then Simplify(e.obj) else o
    case _ => o
  }

  /** Simplifying twice is the same as simplifying once. */
  lemma SimplifyIdempotent(o: LuaObject)
    ensures Simplify(Simplify(o)) == Simplify(o)
  {
  }
}
