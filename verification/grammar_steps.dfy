/**
 * Single steps of the grammar: which alternative of a rule applies to a
 * given input, and what one step of a list rule yields. Proofs about whole
 * texts are assembled from these, each fact about one rule.
 */
module GrammarSteps {
  import opened LuaAst
  import opened Lexer
  import opened Grammar

  /** What may follow a value inside a table, an array or a call. */
  predicate Follows(t: string) {
    t == [] || t[0] == ',' || t[0] == '}' || t[0] == ')'
  }

  lemma NoSkipBeforeFollow(t: string)
    requires Follows(t)
    ensures Whitespace(t) == t
  {
    WhitespaceFixed(t);
  }

  /** Text that cannot continue a numeral, so the value before it ends there. */
  predicate EndsValue(t: string) {
    t == [] || !IsNumChar(t[0])
  }

  /**
   * What may follow an expression: what may follow a value in a list, a
   * closing `]`, or one blank and then a word.
   */
  predicate EndsExpr(t: string) {
    Follows(t) || t[0] == ']' || (|t| >= 2 && t[0] == ' ' && IsIdentStart(t[1]))
  }

  /**
   * After an expression's end the skipper removes at most the one blank, and
   * what is left continues neither a name, nor a numeral, nor an operation,
   * nor a call.
   */
  lemma {:induction false} EndsExprSkip(t: string)
    requires EndsExpr(t)
    ensures Whitespace(t) == (if |t| > 0 && t[0] == ' ' then t[1..] else t)
    ensures t == [] || (!IsWordChar(t[0]) && !IsNumChar(t[0]))
    ensures ParseBinopKind(Whitespace(t)).NoParse?
    ensures EndsPath(Whitespace(t)) && !StartsWith(Whitespace(t), "(")
  {
    if |t| > 0 && t[0] == ' ' {
      assert t == [' '] + t[1..];
      OneSpace(' ', t[1..]);
      WordNotOperator(t[1..]);
    } else {
      WhitespaceFixed(t);
      if t != [] {
        NoOperatorAt(t);
      }
    }
  }

  /** No operator starts with a letter or `_`. */
  lemma WordNotOperator(w: string)
    requires |w| > 0 && IsIdentStart(w[0])
    ensures ParseBinopKind(w).NoParse? && EndsPath(w) && !StartsWith(w, "(")
  {
  }

  /** No operator starts with a separator or a closing bracket. */
  lemma NoOperatorAt(w: string)
    requires |w| > 0 && (w[0] == ',' || w[0] == '}' || w[0] == ')' || w[0] == ']')
    ensures ParseBinopKind(w).NoParse? && EndsPath(w) && !StartsWith(w, "(")
  {
  }

  /** No numeral starts with a character outside `-`, `.` and the digits. */
  lemma NumFails(s: string)
    requires |s| > 0 && !IsNumChar(s[0])
    ensures ParseNum(s).NoParse?
  {
    assert Span(s, IsNumChar) == 0;
  }

  /** A `}` closing a list: nothing is skipped before it, and it is not a separator. */
  lemma CloseBrace(t: string)
    ensures Whitespace("}" + t) == "}" + t
    ensures OptCommaspace("}" + t) == "}" + t
    ensures StartsWith("}" + t, "}") && ("}" + t)[1..] == t
  {
    WhitespaceFixed("}" + t);
  }

  /** `,` before text the skipper leaves alone. */
  lemma CommaThen(inner: string)
    requires Whitespace(inner) == inner
    ensures Commaspace("," + inner) == Parsed((), inner)
  {
    var s := "," + inner;
    assert s[0] == ',' && s[1..] == inner;
  }

  /** An `=` sign: nothing is skipped before it, and it is neither a separator nor a closer. */
  lemma AssignSign(u: string)
    ensures Whitespace("=" + u) == "=" + u
    ensures OptCommaspace("=" + u) == "=" + u
    ensures StartsWith("=" + u, "=") && ("=" + u)[1..] == u
    ensures !StartsWith("=" + u, "}") && !StartsWith("=" + u, "(")
  {
    WhitespaceFixed("=" + u);
  }

  lemma StrFails(s: string)
    requires |s| > 0 && s[0] != '"'
    ensures ParseStr(s).NoParse?
  {
  }

  /** A single `=` is not an operator. */
  lemma BinopKindFailsOnAssign(u: string)
    requires u == [] || u[0] != '='
    ensures ParseBinopKind("=" + u).NoParse?
  {
    var s := "=" + u;
    assert s[0] == '=';
    if |u| > 0 {
      assert s[1] == u[0];
    }
  }

  /** An identifier not followed by `.` is a one-segment dotted name. */
  lemma NamespacedOneWord(s: string, k: string, v: string)
    requires ParseIdentifier(s) == Parsed(k, v)
    requires (v == [] || v[0] != '.') && Whitespace(v) == v
    ensures ParseNamespaced(s) == Parsed([k], v)
  {
    assert DottedTail(v) == ([], v);
    assert [k] + [] == [k];
  }

  // ---------------------------------------------------------------------------
  // The value rule

  lemma ObjectIsNum(s: string)
    requires ParseNum(s).Parsed?
    ensures ParseObject(s) == ParseNum(s)
  {
  }

  lemma ObjectIsBool(s: string)
    requires ParseNum(s).NoParse? && ParseBool(s).Parsed?
    ensures ParseObject(s) == ParseBool(s)
  {
  }

  lemma ObjectIsStr(s: string)
    requires |s| > 0 && s[0] == '"'
    requires ParseNum(s).NoParse? && ParseStr(s).Parsed?
    ensures ParseObject(s) == ParseStr(s)
  {
    assert ParseBool(s).NoParse?;
  }

  /** No token of the lexer starts with a brace. */
  lemma BraceNoToken(s: string)
    requires |s| > 0 && (s[0] == '{' || s[0] == '}')
    ensures ParseNum(s).NoParse? && ParseBool(s).NoParse? && ParseStr(s).NoParse?
    ensures ParseIdentifier(s).NoParse? && ParseNamespaced(s).NoParse?
  {
    NumFails(s);
    assert !StartsWith(s, "true") by { assert "true"[0] == 't'; }
    assert !StartsWith(s, "false") by { assert "false"[0] == 'f'; }
    assert !IsIdentStart(s[0]);
  }

  /** On `{`, the value rule is the array rule if that succeeds, else the table rule. */
  lemma ObjectOnBrace(s: string)
    requires |s| > 0 && s[0] == '{'
    ensures ParseObject(s) == (if ParseArray(s).Parsed? then ParseArray(s) else ParseMap(s))
  {
    BraceNoToken(s);
  }

  /** Text opening with `{` that is not an array but is a map reads as that map. */
  lemma ObjectIsMap(s: string, o: LuaObject, t: string)
    requires |s| > 0 && s[0] == '{'
    requires ParseArray(s).NoParse? && ParseMap(s) == Parsed(o, t)
    ensures ParseObject(s) == Parsed(o, t)
  {
    ObjectOnBrace(s);
  }

  /** A dotted name that is not a numeral or a boolean is a variable reference. */
  lemma ObjectIsVar(s: string, path: seq<string>, v: string)
    requires |s| > 0 && IsIdentStart(s[0])
    requires ParseNum(s).NoParse? && ParseBool(s).NoParse?
    requires ParseNamespaced(s) == Parsed(path, v)
    ensures ParseObject(s) == Parsed(LuaObject.Expr(Var(path)), v)
  {
    StrFails(s);
    assert !StartsWith(s, "{");
  }

  /** No value starts with a character that opens none of its alternatives. */
  lemma ObjectFailsAtLead(s: string)
    requires |s| > 0 && !IsNumChar(s[0]) && s[0] != '"' && s[0] != 't' && s[0] != 'f' && s[0] != '{'
    requires ParseNamespaced(s).NoParse?
    ensures ParseObject(s).NoParse?
  {
    NumFails(s);
    StrFails(s);
    assert !StartsWith(s, "true") && !StartsWith(s, "false") && !StartsWith(s, "{");
  }

  lemma ObjectFailsOnClose(s: string)
    requires |s| > 0 && s[0] == '}'
    ensures ParseObject(s).NoParse?
  {
    BraceNoToken(s);
    assert !StartsWith(s, "{");
  }

  // ---------------------------------------------------------------------------
  // The expression rule

  /** `function` must be followed by `(` (after skipped text) to start an anonymous function. */
  lemma AnonFunctionFails(s: string)
    requires StartsWith(s, "function") ==> !StartsWith(Whitespace(s[8..]), "(")
    ensures ParseAnonFunction(s).NoParse?
  {
  }

  lemma FuncallFails(s: string)
    requires ParseIdentifier(s).NoParse?
    ensures ParseFuncall(s).NoParse?
  {
  }

  lemma FuncallFailsWithoutParen(s: string, path: seq<string>, v: string)
    requires ParseNamespaced(s) == Parsed(path, v)
    requires !StartsWith(Whitespace(v), "(")
    ensures ParseFuncall(s).NoParse?
  {
  }

  lemma BinopFails(s: string)
    requires ParseObject(s).NoParse?
    ensures ParseBinop(s).NoParse?
  {
  }

  lemma BinopParts(s: string, o: LuaObject, w: string, op: BinopKind, y: string, x: string, rhs: LuaExpr, rest: string)
    requires ParseObject(s) == Parsed(o, w) && ParseBinopKind(w) == Parsed(op, y)
    requires Whitespace(y) == x && ParseExpr(x) == Parsed(rhs, rest)
    ensures ParseBinop(s) == Parsed(Binop(op, Literal(o), rhs), rest)
  {
  }

  lemma BinopFailsAfter(s: string, o: LuaObject, v: string)
    requires ParseObject(s) == Parsed(o, v) && ParseBinopKind(v).NoParse?
    ensures ParseBinop(s).NoParse?
  {
  }

  /** When no earlier alternative applies, an expression is a plain value. */
  lemma ExprIsValue(s: string, o: LuaObject, v: string)
    requires !StartsWith(s, "#") && !StartsWith(s, "(")
    requires ParseAnonFunction(s).NoParse? && ParseFuncall(s).NoParse? && ParseBinop(s).NoParse?
    requires ParseObject(s) == Parsed(o, v)
    ensures ParseExpr(s) == Parsed(Literal(o), v)
  {
    assert ParseUnop(s).NoParse?;
    assert ParseParen(s).NoParse?;
  }

  lemma ExprFails(s: string)
    requires !StartsWith(s, "#") && !StartsWith(s, "(")
    requires ParseAnonFunction(s).NoParse? && ParseFuncall(s).NoParse? && ParseBinop(s).NoParse?
    requires ParseObject(s).NoParse?
    ensures ParseExpr(s).NoParse?
  {
    assert ParseUnop(s).NoParse?;
    assert ParseParen(s).NoParse?;
  }

  /** A value that is not a call and is not followed by an operator reads as a literal expression. */
  lemma ValueIsExpr(s: string, o: LuaObject, t: string)
    requires !StartsWith(s, "#") && !StartsWith(s, "(")
    requires ParseAnonFunction(s).NoParse? && ParseFuncall(s).NoParse?
    requires ParseObject(s) == Parsed(o, t) && ParseBinopKind(t).NoParse?
    ensures ParseExpr(s) == Parsed(Literal(o), t)
  {
    BinopFailsAfter(s, o, t);
    ExprIsValue(s, o, t);
  }

  lemma ExprFailsOnClose(s: string)
    requires |s| > 0 && s[0] == '}'
    ensures ParseExpr(s).NoParse?
  {
    ObjectFailsOnClose(s);
    BraceNoToken(s);
    AnonFunctionFails(s);
    FuncallFails(s);
    BinopFails(s);
    ExprFails(s);
  }

  // ---------------------------------------------------------------------------
  // Expression lists and arrays

  lemma ExprList1Cons(s: string, e: LuaExpr, r: string, es: seq<LuaExpr>, t: string)
    requires ParseExpr(s) == Parsed(e, r) && ExprTail(r) == (es, t)
    ensures ParseExprList1(s) == Parsed([e] + es, t)
  {
  }

  lemma ExprList1FailsOnClose(s: string)
    requires |s| > 0 && s[0] == '}'
    ensures ParseExprList1(s).NoParse?
  {
    ExprFailsOnClose(s);
  }

  /** `,` then an expression, then the rest of the list. */
  lemma ExprTailCons(inner: string, e: LuaExpr, r: string, es: seq<LuaExpr>, t: string)
    requires Whitespace(inner) == inner && ParseExpr(inner) == Parsed(e, r) && ExprTail(r) == (es, t)
    ensures ExprTail("," + inner) == ([e] + es, t)
  {
    CommaThen(inner);
    ExprTailAfterComma("," + inner, inner, e, r, es, t);
  }

  lemma ExprTailAfterComma(s: string, inner: string, e: LuaExpr, r: string, es: seq<LuaExpr>, t: string)
    requires Commaspace(s) == Parsed((), inner)
    requires ParseExpr(inner) == Parsed(e, r) && ExprTail(r) == (es, t)
    ensures ExprTail(s) == ([e] + es, t)
  {
  }

  lemma ExprTailStop(s: string)
    requires |s| > 0 && s[0] != ','
    ensures ExprTail(s) == ([], s)
  {
  }

  /** An element list closed by `}` makes the array. */
  lemma ArrayCons(inner: string, es: seq<LuaExpr>, t: string)
    requires Whitespace(inner) == inner && ParseExprList1(inner) == Parsed(es, "}" + t)
    ensures ParseArray("{" + inner) == Parsed(Array(WrapAll(es)), Whitespace(t))
  {
    CloseBrace(t);
    assert ("{" + inner)[1..] == inner;
  }

  /** An array whose first element is followed by `=` is not an array. */
  lemma ArrayFailsOnAssign(inner: string, es: seq<LuaExpr>, u: string)
    requires Whitespace(inner) == inner && ParseExprList1(inner) == Parsed(es, "=" + u)
    ensures ParseArray("{" + inner).NoParse?
  {
    AssignSign(u);
    assert ("{" + inner)[1..] == inner;
  }

  lemma ArrayFailsWithoutElement(inner: string)
    requires Whitespace(inner) == inner && ParseExprList1(inner).NoParse?
    ensures ParseArray("{" + inner).NoParse?
  {
    assert ("{" + inner)[1..] == inner;
  }

  // ---------------------------------------------------------------------------
  // Fields and tables

  /** `name=value` where the value reads as an expression. */
  lemma FieldStep(s: string, k: string, u: string, e: LuaExpr, r: string)
    requires ParseIdentifier(s) == Parsed(k, "=" + u)
    requires Whitespace(u) == u && ParseExpr(u) == Parsed(e, r)
    ensures ParseField(s) == Parsed((k, LuaObject.Expr(e)), r)
  {
    AssignSign(u);
    assert ("=" + u)[1..] == u;
    FieldAfterName(s, k, "=" + u, u, e, r);
  }

  /** A name, then `=` with nothing skipped around it, then an expression. */
  lemma FieldAfterName(s: string, k: string, v: string, u: string, e: LuaExpr, r: string)
    requires ParseIdentifier(s) == Parsed(k, v)
    requires Whitespace(v) == v && StartsWith(v, "=") && Whitespace(v[1..]) == u
    requires ParseExpr(u) == Parsed(e, r)
    ensures ParseField(s) == Parsed((k, LuaObject.Expr(e)), r)
  {
  }

  lemma FieldFailsOnClose(s: string)
    requires |s| > 0 && s[0] == '}'
    ensures ParseField(s).NoParse?
  {
    assert ParseIdentifier(s).NoParse?;
  }

  lemma FieldListCons(s: string, f: (string, LuaObject), r: string, fs: seq<(string, LuaObject)>, t: string)
    requires ParseField(s) == Parsed(f, r) && FieldTail(r) == (fs, t)
    ensures ParseFieldList(s) == ([f] + fs, t)
  {
  }

  lemma FieldListStop(s: string)
    requires |s| > 0 && s[0] == '}'
    ensures ParseFieldList(s) == ([], s)
  {
    FieldFailsOnClose(s);
  }

  /** `,` then a field, then the rest of the list. */
  lemma FieldTailCons(inner: string, f: (string, LuaObject), r: string, fs: seq<(string, LuaObject)>, t: string)
    requires Whitespace(inner) == inner && ParseField(inner) == Parsed(f, r) && FieldTail(r) == (fs, t)
    ensures FieldTail("," + inner) == ([f] + fs, t)
  {
    CommaThen(inner);
    FieldTailAfterComma("," + inner, inner, f, r, fs, t);
  }

  lemma FieldTailAfterComma(s: string, inner: string, f: (string, LuaObject), r: string, fs: seq<(string, LuaObject)>, t: string)
    requires Commaspace(s) == Parsed((), inner)
    requires ParseField(inner) == Parsed(f, r) && FieldTail(r) == (fs, t)
    ensures FieldTail(s) == ([f] + fs, t)
  {
  }

  lemma FieldTailNoComma(s: string)
    requires Commaspace(s).NoParse?
    ensures FieldTail(s) == ([], s)
  {
  }

  /** A `,` not followed by a field is left unconsumed. */
  lemma FieldTailNoField(s: string, inner: string)
    requires Commaspace(s) == Parsed((), inner) && ParseField(inner).NoParse?
    ensures FieldTail(s) == ([], s)
  {
  }

  lemma FieldTailStop(s: string)
    requires |s| > 0 && s[0] != ','
    ensures FieldTail(s) == ([], s)
  {
  }

  /** A field list closed by `}` makes the table. */
  lemma MapCons(inner: string, fs: seq<(string, LuaObject)>, t: string)
    requires Whitespace(inner) == inner && ParseFieldList(inner) == (fs, "}" + t)
    ensures ParseMap("{" + inner) == Parsed(Map(FieldsToMap(fs)), Whitespace(t))
  {
    CloseBrace(t);
    assert ("{" + inner)[1..] == inner;
  }

  /** A table of fields read whole, where the array rule fails, is read as a map value. */
  lemma MapObject(inner: string, fs: seq<(string, LuaObject)>, t: string)
    requires Whitespace(inner) == inner && ParseFieldList(inner) == (fs, "}" + t)
    requires ParseArray("{" + inner).NoParse?
    ensures ParseObject("{" + inner) == Parsed(Map(FieldsToMap(fs)), Whitespace(t))
  {
    MapCons(inner, fs, t);
    assert ("{" + inner)[0] == '{';
    ObjectIsMap("{" + inner, Map(FieldsToMap(fs)), Whitespace(t));
  }

  /** A list of expressions read whole inside braces is read as an array value. */
  lemma ArrayObject(inner: string, es: seq<LuaExpr>, t: string)
    requires Whitespace(inner) == inner && ParseExprList1(inner) == Parsed(es, "}" + t)
    ensures ParseObject("{" + inner) == Parsed(Array(WrapAll(es)), Whitespace(t))
  {
    ArrayCons(inner, es, t);
    assert ("{" + inner)[0] == '{';
    ObjectOnBrace("{" + inner);
  }

  lemma FuncallStep(s: string, path: seq<string>, v: string, args: seq<LuaExpr>, u: string)
    requires ParseNamespaced(s) == Parsed(path, v) && |v| > 0 && v[0] == '('
    requires ParseExprList0(Whitespace(v[1..])) == (args, u) && |u| > 0 && u[0] == ')'
    ensures ParseFuncall(s) == Parsed(Funcall(path, args), Whitespace(u[1..]))
  {
    WhitespaceFixed(v);
    assert StartsWith(Whitespace(v), "(");
    assert StartsWith(u, ")");
  }

  lemma FunctionRestStep(s: string, ps: seq<string>, y: string, sts: seq<LuaStmt>, w: string)
    requires StartsWith(s, "(") && ParseIdentList(Whitespace(s[1..])) == (ps, y) && StartsWith(y, ")")
    requires ParseStmtList1(Whitespace(y[1..])) == Parsed(sts, w) && StartsWith(w, "end")
    ensures ParseFunctionRest(s) == Parsed(LuaFunction(ps, sts), Whitespace(w[3..]))
  {
  }

  lemma SubscriptStep(s: string, n: nat, base: LValue, pre: string, r: ParseResult<(LValue, LuaExpr)>)
    requires FindChar(s, '[') == n && n < |s|
    requires ParseLValue(s[..n]) == Parsed(base, pre)
    requires IndexAfter(base, s[n - |pre|..]) == r
    ensures ParseSubscript(s) == r
  {
    assert ParseLValue(s[..FindChar(s, '[')]) == Parsed(base, pre);
  }

  /** Without a `[` there is no subscript. */
  lemma SubscriptFailsWithoutBracket(s: string)
    requires FindChar(s, '[') == |s|
    ensures ParseSubscript(s).NoParse?
  {
  }

  /** When the text the base leaves does not start with `[`, there is no subscript. */
  lemma SubscriptFailsAt(s: string, n: nat, base: LValue, pre: string)
    requires FindChar(s, '[') == n && n < |s|
    requires ParseLValue(s[..n]) == Parsed(base, pre) && s[n - |pre|] != '['
    ensures ParseSubscript(s).NoParse?
  {
    IndexFails(base, s[n - |pre|..]);
    SubscriptStep(s, n, base, pre, NoParse);
  }

  /** Without `[` in front there is no index. */
  lemma IndexFails(base: LValue, at: string)
    requires |at| > 0 && at[0] != '['
    ensures IndexAfter(base, at).NoParse?
  {
    assert !StartsWith(at, "[");
  }

  lemma IndexStep(base: LValue, at: string, index: LuaExpr, v: string)
    requires |at| > 0 && at[0] == '['
    requires ParseExpr(at[1..]) == Parsed(index, v) && |v| > 0 && v[0] == ']'
    ensures IndexAfter(base, at) == Parsed((base, index), Whitespace(v[1..]))
  {
    OpensWith(at, '[');
    OpensWith(v, ']');
  }

  lemma LValueOfSubscript(s: string, base: LValue, index: LuaExpr, rest: string)
    requires ParseSubscript(s) == Parsed((base, index), rest)
    ensures ParseLValue(s) == Parsed(Subscript(base, index), rest)
  {
  }
}
