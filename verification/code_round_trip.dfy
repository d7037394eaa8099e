/**
 * The grammar reads every readable code fragment's text back as the
 * fragment's tree: expressions, argument lists, function definitions,
 * statements and statement blocks, proved together by induction on the
 * fragment. Each lemma also says exactly where the reading stops, which is
 * how the parenthesis rule's unskipped blank shows up.
 */
module CodeRoundTrip {
  import opened LuaAst
  import opened Lexer
  import opened Grammar
  import opened GrammarSteps
  import Printer
  import opened CodeText
  import opened CodeSteps
  import opened TopLevel

  // ---------------------------------------------------------------------------
  // Expressions

  /** An expression's text reads back as its tree, stopping after the blanks that follow it (none after a final `)`). */
  lemma {:induction false} ExprRoundTrip(e: PExpr, t: string)
    requires ReadableExpr(e) && EndsExpr(t)
    ensures ParseExpr(ExprText(e) + t) == Parsed(ToExpr(e), After(e, t))
    decreases e, 4
  {
    match e
    case ELit(d) =>
      Printer.ExprRoundTrip(d, t);
    case EVar(ws) =>
      VarRoundTrip(ws, t);
    case ECall(ws, args) =>
      CallExprRoundTrip(ws, args, t);
    case EBinop(op, l, r) =>
      BinopRoundTrip(op, l, r, t);
    case ELen(x) =>
      UnopRoundTrip(x, t);
    case EParen(x) =>
      ParenRoundTrip(x, t);
    case EFun(ps, body) =>
      EndsExprSkip(t);
      AnonFunctionRoundTrip(ps, body, t);
  }

  /** A call reads as the callee's path and the arguments' trees, whatever follows it. */
  lemma {:induction false} FuncallRoundTrip(ws: seq<string>, args: seq<PExpr>, t: string)
    requires |ws| >= 1 && AllIdentifiers(ws) && ReadableExprs(args)
    ensures ParseFuncall(PathText(ws) + ("(" + (ArgsText(args) + (")" + t))))
         == Parsed(Funcall(ws, ToExprs(args)), Whitespace(t))
    decreases args, 3
  {
    var inner := ArgsText(args) + (")" + t);
    var v := "(" + inner;
    WhitespaceFixed(v);
    NamespacedRoundTrip(ws, v);
    assert v[1..] == inner;
    ArgsStart(args, ")" + t);
    ArgsRoundTrip(args, ")" + t);
    assert (")" + t)[1..] == t;
    FuncallStep(PathText(ws) + v, ws, v, ToExprs(args), ")" + t);
  }

  /** In expression position a call is read by the call rule: a name path does not start with `function`. */
  lemma {:induction false} CallExprRoundTrip(ws: seq<string>, args: seq<PExpr>, t: string)
    requires IsPath(ws) && ReadableExprs(args)
    ensures ParseExpr(ExprText(ECall(ws, args)) + t) == Parsed(ToExpr(ECall(ws, args)), Whitespace(t))
    decreases args, 4
  {
    var s := PathText(ws) + ("(" + (ArgsText(args) + (")" + t)));
    CallText(ws, args, t);
    CallNotOther(ws, "(" + (ArgsText(args) + (")" + t)));
    FuncallRoundTrip(ws, args, t);
    ExprIsFuncall(s);
  }

  /** Arguments joined by `,` read as their trees, up to the closing `)`. */
  lemma {:induction false} ArgsRoundTrip(args: seq<PExpr>, u: string)
    requires ReadableExprs(args) && |u| > 0 && u[0] == ')'
    ensures ParseExprList0(ArgsText(args) + u) == (ToExprs(args), u)
    decreases args, 2
  {
    if args == [] {
      assert ArgsText(args) + u == u;
      ExprFailsOnParen(u);
    } else {
      var y := ArgTail(args[1..]) + u;
      ArgsTextCons(args, u);
      ArgTailFollows(args[1..], u);
      ExprRoundTrip(args[0], y);
      AfterFollow(args[0], y);
      ArgTailRoundTrip(args[1..], u);
      ExprList0Cons(ExprText(args[0]) + y, ToExpr(args[0]), y, ToExprs(args[1..]), u);
    }
  }

  lemma {:induction false} ArgTailRoundTrip(es: seq<PExpr>, u: string)
    requires ReadableExprs(es) && |u| > 0 && u[0] == ')'
    ensures ExprTail(ArgTail(es) + u) == (ToExprs(es), u)
    decreases es, 1
  {
    if es == [] {
      assert ArgTail(es) + u == u;
      ExprTailStop(u);
    } else {
      var y := ArgTail(es[1..]) + u;
      var inner := ExprText(es[0]) + y;
      ArgTailCons(es, u);
      ExprStart(es[0], y);
      SolidFixed(inner);
      ArgTailFollows(es[1..], u);
      ExprRoundTrip(es[0], y);
      AfterFollow(es[0], y);
      ArgTailRoundTrip(es[1..], u);
      ExprTailCons(inner, ToExpr(es[0]), y, ToExprs(es[1..]), u);
    }
  }

  /**
   * `l op r` reads as the operation on the two trees, the right operand
   * being a whole expression: `a - b - c` is `a - (b - c)`.
   */
  lemma {:induction false} BinopRoundTrip(op: BinopKind, l: PExpr, r: PExpr, t: string)
    requires ReadableExpr(EBinop(op, l, r)) && EndsExpr(t)
    ensures ParseBinop(ExprText(EBinop(op, l, r)) + t) == Parsed(Binop(op, ToExpr(l), ToExpr(r)), After(r, t))
    ensures ParseExpr(ExprText(EBinop(op, l, r)) + t) == Parsed(Binop(op, ToExpr(l), ToExpr(r)), After(r, t))
    decreases EBinop(op, l, r), 3
  {
    BinopText(op, l, r, t);
    ExprStart(r, t);
    ExprRoundTrip(r, t);
    BinopStep(l, op, ExprText(r) + t, ToExpr(r), After(r, t));
  }

  /** `#x` reads as the length operation on `x`'s tree. */
  lemma {:induction false} UnopRoundTrip(x: PExpr, t: string)
    requires ReadableExpr(x) && EndsExpr(t)
    ensures ParseUnop(ExprText(ELen(x)) + t) == Parsed(Unop(Octothorpe, ToExpr(x)), After(x, t))
    ensures ParseExpr(ExprText(ELen(x)) + t) == Parsed(Unop(Octothorpe, ToExpr(x)), After(x, t))
    decreases ELen(x), 3
  {
    var s := "#" + (ExprText(x) + t);
    LenText(x, t);
    assert s[1..] == ExprText(x) + t;
    ExprStart(x, t);
    SolidFixed(ExprText(x) + t);
    ExprRoundTrip(x, t);
    ExprIsUnop(s);
  }

  /** `(x)` reads as `x`'s tree and stops right after the `)`, whatever follows. */
  lemma {:induction false} ParenRoundTrip(x: PExpr, t: string)
    requires ReadableExpr(x)
    ensures ParseParen(ExprText(EParen(x)) + t) == Parsed(ToExpr(x), t)
    ensures ParseExpr(ExprText(EParen(x)) + t) == Parsed(ToExpr(x), t)
    decreases EParen(x), 3
  {
    var s := "(" + (ExprText(x) + (")" + t));
    ParenText(x, t);
    assert s[1..] == ExprText(x) + (")" + t);
    ExprStart(x, ")" + t);
    SolidFixed(ExprText(x) + (")" + t));
    ExprRoundTrip(x, ")" + t);
    AfterFollow(x, ")" + t);
    assert (")" + t)[1..] == t;
    ExprIsParen(s);
  }

  // ---------------------------------------------------------------------------
  // Functions

  /** Parameters in parentheses, a body and `end` read as the function, skipping the blanks after `end`. */
  lemma {:induction false} FunctionRestRoundTrip(ps: seq<string>, body: seq<PStmt>, t: string)
    requires AllIdentifiers(ps) && |body| >= 1 && ReadableStmts(body)
    requires t == [] || !IsWordChar(t[0])
    ensures ParseFunctionRest(RestText(ps, body) + t) == Parsed(LuaFunction(ps, ToStmts(body)), Whitespace(t))
    decreases EFun(ps, body), 2
  {
    var b := StmtsText(body) + (" end" + t);
    var y := ")" + (" " + b);
    var s := "(" + (ListText(ps) + y);
    RestTextSplit(ps, body, t);
    assert s[1..] == ListText(ps) + y;
    ListStart(ps, y);
    IdentListRoundTrip(ps, y);
    assert y[1..] == " " + b;
    StmtsStart(body, " end" + t);
    BlankThenSolid(b);
    EndCloses(t);
    StmtsRoundTrip(body, " end" + t);
    FunctionRestStep(s, ps, y, ToStmts(body), "end" + t);
  }

  /** `function` and the rest read as an anonymous function, in expression position too. */
  lemma {:induction false} AnonFunctionRoundTrip(ps: seq<string>, body: seq<PStmt>, t: string)
    requires ReadableExpr(EFun(ps, body)) && (t == [] || !IsWordChar(t[0]))
    ensures ParseAnonFunction(ExprText(EFun(ps, body)) + t) == Parsed(LuaFunction(ps, ToStmts(body)), Whitespace(t))
    ensures ParseExpr(ExprText(EFun(ps, body)) + t) == Parsed(ToExpr(EFun(ps, body)), Whitespace(t))
    decreases EFun(ps, body), 3
  {
    var r := RestText(ps, body) + t;
    FunText(ps, body, t);
    assert ("function" + r)[8..] == r;
    RestTextSplit(ps, body, t);
    WhitespaceFixed(r);
    FunctionRestRoundTrip(ps, body, t);
  }

  // ---------------------------------------------------------------------------
  // Statement blocks

  /** Statements joined by blanks read as their trees, up to the `end` or `else` that closes them. */
  lemma {:induction false} StmtsRoundTrip(ss: seq<PStmt>, t: string)
    requires |ss| >= 1 && ReadableStmts(ss) && ClosesBlock(t)
    ensures ParseStmtList1(StmtsText(ss) + t) == Parsed(ToStmts(ss), t[1..])
    decreases ss, 2
  {
    var y := StmtTail(ss[1..]) + t;
    StmtsTextCons(ss, t);
    StmtTailEnds(ss[1..], t);
    StmtRoundTrip(ss[0], y);
    StmtManyRoundTrip(ss[1..], t);
    StmtList1Cons(StmtText(ss[0]) + y, ToStmt(ss[0]), Whitespace(y), ToStmts(ss[1..]), t[1..]);
  }

  lemma {:induction false} StmtManyRoundTrip(ss: seq<PStmt>, t: string)
    requires ReadableStmts(ss) && ClosesBlock(t)
    ensures StmtMany(Whitespace(StmtTail(ss) + t)) == (ToStmts(ss), t[1..])
    decreases ss, 1
  {
    if ss == [] {
      assert StmtTail(ss) + t == t;
      CloserSkip(t);
      StmtManyStop(t[1..]);
    } else {
      var y := StmtTail(ss[1..]) + t;
      var w := StmtText(ss[0]) + y;
      StmtTailCons(ss, t);
      StmtStart(ss[0], y);
      BlankThenSolid(w);
      StmtTailEnds(ss[1..], t);
      StmtRoundTrip(ss[0], y);
      StmtManyRoundTrip(ss[1..], t);
      StmtManyCons(w, ToStmt(ss[0]), Whitespace(y), ToStmts(ss[1..]), t[1..]);
    }
  }

  // ---------------------------------------------------------------------------
  // Statements

  /** A statement's text reads back as its tree, skipping the blank after it. */
  lemma {:induction false} StmtRoundTrip(st: PStmt, t: string)
    requires ReadableStmt(st) && EndsStmt(t)
    ensures ParseStmt(StmtText(st) + t) == Parsed(ToStmt(st), Whitespace(t))
    decreases st, 4
  {
    EndsStmtExpr(t);
    match st
    case SReturn(e) =>
      ReturnRoundTrip(e, t);
    case SAssign(ws, e) =>
      AssignRoundTrip(ws, e, t);
    case SIndexAssign(ws, i, e) =>
      IndexAssignRoundTrip(ws, i, e, t);
    case SLocal(k, e) =>
      LocalRoundTrip(k, e, t);
    case SIf(c, a, b) =>
      IfThenRoundTrip(c, a, b, t);
    case SCall(ws, args) =>
      CallStmtRoundTrip(ws, args, t);
  }

  /** `return e` reads as returning `e`'s tree, skipping the blanks after it even after a final `)`. */
  lemma {:induction false} ReturnRoundTrip(e: PExpr, t: string)
    requires ReadableExpr(e) && EndsExpr(t)
    ensures ParseReturn(StmtText(SReturn(e)) + t) == Parsed(Return(ToExpr(e)), Whitespace(t))
    ensures ParseStmt(StmtText(SReturn(e)) + t) == Parsed(Return(ToExpr(e)), Whitespace(t))
    decreases SReturn(e), 3
  {
    var x := ExprText(e) + t;
    var s := "return" + (" " + x);
    ReturnText(e, t);
    assert s[6..] == " " + x;
    ExprStart(e, t);
    BlankThenSolid(x);
    ExprRoundTrip(e, t);
    AfterSkip(e, t);
    StmtIsReturn(s);
  }

  /**
   * `path = e` reads as assigning `e`'s tree to the dotted target. The
   * assignment rule does not skip after the value, so after a final `)` the
   * blank is left.
   */
  lemma {:induction false} AssignRoundTrip(ws: seq<string>, e: PExpr, t: string)
    requires IsPath(ws) && ReadableExpr(e) && EndsExpr(t)
    ensures ParseAssign(StmtText(SAssign(ws, e)) + t) == Parsed(Assign(Dotted(ws), ToExpr(e)), After(e, t))
    ensures ParseStmt(StmtText(SAssign(ws, e)) + t) == Parsed(Assign(Dotted(ws), ToExpr(e)), After(e, t))
    decreases SAssign(ws, e), 3
  {
    AssignText(ws, e, t);
    ExprStart(e, t);
    ExprRoundTrip(e, t);
    PathAssignStep(ws, ExprText(e) + t, ToExpr(e), After(e, t));
  }

  /** `path[i] = e` reads as assigning to the subscript of the dotted base. */
  lemma {:induction false} IndexAssignRoundTrip(ws: seq<string>, i: PExpr, e: PExpr, t: string)
    requires IsPath(ws) && ReadableExpr(i) && ReadableExpr(e) && EndsExpr(t)
    ensures ParseAssign(StmtText(SIndexAssign(ws, i, e)) + t)
         == Parsed(Assign(Subscript(Dotted(ws), ToExpr(i)), ToExpr(e)), After(e, t))
    ensures ParseStmt(StmtText(SIndexAssign(ws, i, e)) + t)
         == Parsed(Assign(Subscript(Dotted(ws), ToExpr(i)), ToExpr(e)), After(e, t))
    decreases SIndexAssign(ws, i, e), 3
  {
    var x := ExprText(e) + t;
    var v := "[" + (ExprText(i) + ("]" + (" " + ("=" + (" " + x)))));
    IndexAssignText(ws, i, e, t);
    SubscriptRoundTrip(ws, i, " " + ("=" + (" " + x)));
    ExprStart(e, t);
    BlankThenSolid("=" + (" " + x));
    ExprRoundTrip(e, t);
    IndexAssignStep(ws, v, Subscript(Dotted(ws), ToExpr(i)), x, ToExpr(e), After(e, t));
  }

  /**
   * `path[i]` then any text reads as the subscript target: the base is the
   * text before the first `[`, read whole, and the blanks after `]` are skipped.
   */
  lemma {:induction false} SubscriptRoundTrip(ws: seq<string>, i: PExpr, u: string)
    requires |ws| >= 1 && AllIdentifiers(ws) && ReadableExpr(i)
    ensures ParseSubscript(PathText(ws) + ("[" + (ExprText(i) + ("]" + u))))
         == Parsed((Dotted(ws), ToExpr(i)), Whitespace(u))
    ensures ParseLValue(PathText(ws) + ("[" + (ExprText(i) + ("]" + u))))
         == Parsed(Subscript(Dotted(ws), ToExpr(i)), Whitespace(u))
    decreases i, 6
  {
    var d := PathText(ws);
    var at := "[" + (ExprText(i) + ("]" + u));
    var s := d + at;
    PathNoBracket(ws);
    SubscriptAt(d, ExprText(i), u);
    LValueOfWholePath(ws);
    ExprRoundTrip(i, "]" + u);
    AfterFollow(i, "]" + u);
    assert at[1..] == ExprText(i) + ("]" + u);
    assert ("]" + u)[1..] == u;
    var r := Parsed((Dotted(ws), ToExpr(i)), Whitespace(u));
    IndexStep(Dotted(ws), at, ToExpr(i), "]" + u);
    assert s[|d|..] == at;
    SubscriptStep(s, |d|, Dotted(ws), [], r);
    LValueOfSubscript(s, Dotted(ws), ToExpr(i), Whitespace(u));
  }

  /** `local k = e` reads as the name and `e`'s tree, and as a statement assigns to the one-segment name `k`. */
  lemma {:induction false} LocalRoundTrip(k: string, e: PExpr, t: string)
    requires IsIdentifier(k) && ReadableExpr(e) && EndsExpr(t)
    ensures ParseLocal(StmtText(SLocal(k, e)) + t) == Parsed((k, ToExpr(e)), Whitespace(t))
    ensures ParseStmt(StmtText(SLocal(k, e)) + t) == Parsed(Assign(Dotted([k]), ToExpr(e)), Whitespace(t))
    decreases SLocal(k, e), 3
  {
    LocalText(k, e, t);
    ExprStart(e, t);
    ExprRoundTrip(e, t);
    AfterSkip(e, t);
    LocalStep(k, ExprText(e) + t, ToExpr(e), After(e, t));
  }

  /** `if c then a else b end` reads as the conditional; without `else` the else-branch is empty. */
  lemma {:induction false} IfThenRoundTrip(c: PExpr, a: seq<PStmt>, b: seq<PStmt>, t: string)
    requires ReadableStmt(SIf(c, a, b)) && (t == [] || !IsWordChar(t[0]))
    ensures ParseIfThen(StmtText(SIf(c, a, b)) + t) == Parsed(IfThen(ToExpr(c), ToStmts(a), ToStmts(b)), Whitespace(t))
    ensures ParseStmt(StmtText(SIf(c, a, b)) + t) == Parsed(IfThen(ToExpr(c), ToStmts(a), ToStmts(b)), Whitespace(t))
    decreases SIf(c, a, b), 3
  {
    var tail := ElseText(b) + (" end" + t);
    var body := StmtsText(a) + tail;
    var y := " " + ("then" + (" " + body));
    IfText(c, a, b, t);
    ExprStart(c, y);
    BlankThenSolid("then" + (" " + body));
    ExprRoundTrip(c, y);
    StmtsStart(a, tail);
    ElseCloses(b, t);
    StmtsRoundTrip(a, tail);
    ElseRoundTrip(b, t);
    var s := "if" + (" " + (ExprText(c) + y));
    IfHead(ExprText(c) + y, ToExpr(c), body, ToStmts(a), tail[1..]);
    if b == [] {
      IfEndCase(s, ToExpr(c), "then" + (" " + body), ToStmts(a), tail[1..], t);
    } else {
      IfElseCase(s, ToExpr(c), "then" + (" " + body), ToStmts(a), tail[1..], ToStmts(b), t);
    }
    IfStmtStep(s, IfThen(ToExpr(c), ToStmts(a), ToStmts(b)), Whitespace(t));
  }

  /**
   * What the then-branch leaves: `end` alone, or `else`, statements and
   * `end`, as the conditional rule reads them.
   */
  lemma {:induction false} ElseRoundTrip(b: seq<PStmt>, t: string)
    requires ReadableStmts(b) && (t == [] || !IsWordChar(t[0]))
    ensures var w := (ElseText(b) + (" end" + t))[1..];
      && (b == [] ==> !StartsWith(w, "else") && StartsWith(w, "end") && w[3..] == t)
      && (b != [] ==> StartsWith(w, "else") && ParseStmtList1(Whitespace(w[4..])) == Parsed(ToStmts(b), "end" + t))
    decreases b, 3
  {
    EndCloses(t);
    if b != [] {
      var eb := StmtsText(b) + (" end" + t);
      ElseTextCons(b, " end" + t);
      assert (ElseText(b) + (" end" + t))[1..] == "else" + (" " + eb);
      assert ("else" + (" " + eb))[4..] == " " + eb;
      StmtsStart(b, " end" + t);
      BlankThenSolid(eb);
      StmtsRoundTrip(b, " end" + t);
    } else {
      assert ElseText(b) + (" end" + t) == " end" + t;
    }
  }

  /** A call statement reads as the call, as the expression rule reads it. */
  lemma {:induction false} CallStmtRoundTrip(ws: seq<string>, args: seq<PExpr>, t: string)
    requires IsPath(ws) && ReadableExprs(args)
    ensures ParseStmt(StmtText(SCall(ws, args)) + t) == Parsed(LuaStmt.Expr(Funcall(ws, ToExprs(args))), Whitespace(t))
    decreases SCall(ws, args), 3
  {
    var s := PathText(ws) + ("(" + (ArgsText(args) + (")" + t)));
    CallText(ws, args, t);
    CallNotOther(ws, "(" + (ArgsText(args) + (")" + t)));
    CallExprRoundTrip(ws, args, t);
    StmtIsExpr(s, Funcall(ws, ToExprs(args)), Whitespace(t));
  }

  // ---------------------------------------------------------------------------
  // Consequences

  /**
   * Operator chains nest to the right and no operator binds tighter than
   * another: `a op1 b op2 c` is `a op1 (b op2 c)`, so `1 * 2 + 3` is `1 * (2 + 3)`.
   */
  lemma ChainNestsRight(op1: BinopKind, a: PExpr, op2: BinopKind, b: PExpr, c: PExpr, t: string)
    requires (a.ELit? || a.EVar?) && (b.ELit? || b.EVar?)
    requires ReadableExpr(a) && ReadableExpr(b) && ReadableExpr(c) && EndsExpr(t)
    ensures ParseExpr(ExprText(a) + (" " + (OpText(op1) + (" " + (ExprText(b) + (" " + (OpText(op2) + (" " + (ExprText(c) + t)))))))))
         == Parsed(Binop(op1, ToExpr(a), Binop(op2, ToExpr(b), ToExpr(c))), After(c, t))
  {
    ChainText(op1, a, op2, b, c, t);
    ExprRoundTrip(EBinop(op1, a, EBinop(op2, b, c)), t);
  }

  lemma ChainText(op1: BinopKind, a: PExpr, op2: BinopKind, b: PExpr, c: PExpr, t: string)
    requires (a.ELit? || a.EVar?) && (b.ELit? || b.EVar?)
    requires ReadableExpr(a) && ReadableExpr(b) && ReadableExpr(c)
    ensures ExprText(EBinop(op1, a, EBinop(op2, b, c))) + t
         == ExprText(a) + (" " + (OpText(op1) + (" " + (ExprText(b) + (" " + (OpText(op2) + (" " + (ExprText(c) + t))))))))
    ensures ReadableExpr(EBinop(op1, a, EBinop(op2, b, c)))
    ensures ToExpr(EBinop(op1, a, EBinop(op2, b, c))) == Binop(op1, ToExpr(a), Binop(op2, ToExpr(b), ToExpr(c)))
    ensures After(EBinop(op1, a, EBinop(op2, b, c)), t) == After(c, t)
  {
    BinopText(op2, b, c, t);
    BinopText(op1, a, EBinop(op2, b, c), t);
    assert OpenEnd(EBinop(op2, b, c)) == OpenEnd(c);
  }

  /** `if c then s end` reads as a conditional with the one statement and an empty else-branch. */
  lemma IfWithoutElse(c: PExpr, st: PStmt, t: string)
    requires ReadableExpr(c) && !OpenEnd(c) && ReadableStmt(st) && (t == [] || !IsWordChar(t[0]))
    ensures ParseIfThen("if" + (" " + (ExprText(c) + (" " + ("then" + (" " + (StmtText(st) + (" end" + t))))))))
         == Parsed(IfThen(ToExpr(c), [ToStmt(st)], []), Whitespace(t))
  {
    assert StmtsText([st]) == StmtText(st) + "" == StmtText(st);
    assert ElseText([]) + (" end" + t) == " end" + t;
    assert ToStmts([st]) == [ToStmt(st)];
    assert ReadableStmts([st]);
    IfText(c, [st], [], t);
    IfThenRoundTrip(c, [st], [], t);
  }

  /** `function name(params) body end` reads as the name and the function, skipping the blanks after `end`. */
  lemma NamedFunctionRoundTrip(name: string, ps: seq<string>, body: seq<PStmt>, t: string)
    requires IsIdentifier(name) && AllIdentifiers(ps) && |body| >= 1 && ReadableStmts(body)
    requires t == [] || !IsWordChar(t[0])
    ensures ParseNamedFunction("function" + (" " + (name + (RestText(ps, body) + t))))
         == Parsed((name, LuaFunction(ps, ToStmts(body))), Whitespace(t))
  {
    RestTextSplit(ps, body, t);
    FunctionRestRoundTrip(ps, body, t);
    NamedFunctionStep(name, RestText(ps, body) + t, LuaFunction(ps, ToStmts(body)), Whitespace(t));
  }

  /** At the top level, `local k = e` binds `k` to `e`'s tree and changes nothing else. */
  lemma TopLevelLocal(ctx: LuaContext, k: string, e: PExpr, t: string)
    requires IsIdentifier(k) && ReadableExpr(e) && EndsExpr(t)
    ensures ParseTopLevel(ctx, StmtText(SLocal(k, e)) + t)
         == (ctx.(locals := ctx.locals[k := ToExpr(e)]), Parsed((), Whitespace(t)))
  {
    LocalRoundTrip(k, e, t);
    LocalText(k, e, t);
    TopLevelLocalStep(ctx, StmtText(SLocal(k, e)) + t, k, ToExpr(e), Whitespace(t));
  }

  /** At the top level, a named function definition binds the name to the function and changes nothing else. */
  lemma TopLevelFunction(ctx: LuaContext, name: string, ps: seq<string>, body: seq<PStmt>, t: string)
    requires IsIdentifier(name) && AllIdentifiers(ps) && |body| >= 1 && ReadableStmts(body)
    requires t == [] || !IsWordChar(t[0])
    ensures ParseTopLevel(ctx, "function" + (" " + (name + (RestText(ps, body) + t))))
         == (ctx.(functions := ctx.functions[name := LuaFunction(ps, ToStmts(body))]), Parsed((), Whitespace(t)))
  {
    var s := "function" + (" " + (name + (RestText(ps, body) + t)));
    NamedFunctionRoundTrip(name, ps, body, t);
    TopLevelFunctionStep(ctx, s, name, LuaFunction(ps, ToStmts(body)), Whitespace(t));
  }
}
