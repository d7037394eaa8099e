/**
 * Single steps of the grammar on code fragments: where the skipper stops
 * around them, which alternative of the expression and statement rules
 * applies, and why a keyword, a `(` or a `=` after a dotted name stops the
 * rules tried before the right one.
 */
module CodeSteps {
  import opened LuaAst
  import opened Lexer
  import opened Grammar
  import opened GrammarSteps
  import opened Printer
  import opened CodeText
  import opened TopLevel

  /** Text that starts with neither blank space nor a comment. */
  predicate Solid(w: string) {
    |w| > 0 && !IsSpace(w[0]) && !IsCommentStart(w)
  }

  lemma SolidFixed(w: string)
    requires Solid(w)
    ensures Whitespace(w) == w
  {
    WhitespaceFixed(w);
  }

  /** One blank before solid text is all the skipper removes. */
  lemma BlankThenSolid(w: string)
    requires Solid(w)
    ensures Whitespace(" " + w) == w
  {
    assert " " + w == [' '] + w;
    SpaceSkipped(' ', w);
    WhitespaceFixed(w);
  }

  lemma SolidPrefix(w: string, k: nat)
    requires Solid(w) && 1 <= k <= |w|
    ensures Solid(w[..k])
  {
    if k >= 3 {
      assert w[..k][1] == w[1] && w[..k][2] == w[2];
    }
  }

  /** Where an expression's reading stops: right after a final `)`, else after the blanks that follow. */
  function After(e: PExpr, t: string): string {
    if OpenEnd(e) then t else Whitespace(t)
  }

  // ---------------------------------------------------------------------------
  // How fragment text starts

  lemma PathStart(ws: seq<string>, v: string)
    requires |ws| >= 1 && IsIdentifier(ws[0])
    ensures |PathText(ws) + v| > 0 && (PathText(ws) + v)[0] == ws[0][0]
    ensures IsIdentStart((PathText(ws) + v)[0]) && Solid(PathText(ws) + v)
  {
    assert PathText(ws) + v == ws[0] + (DotsText(ws[1..]) + v);
  }

  lemma {:induction false} ExprStart(e: PExpr, t: string)
    requires ReadableExpr(e)
    ensures Solid(ExprText(e) + t)
    decreases e
  {
    match e
    case ELit(d) =>
      PrintStartsValue(d, t);
    case EVar(ws) =>
      PathStart(ws, t);
    case ECall(ws, args) =>
      CallText(ws, args, t);
      PathStart(ws, "(" + (ArgsText(args) + (")" + t)));
    case EBinop(op, l, r) =>
      BinopText(op, l, r, t);
      ExprStart(l, " " + (OpText(op) + (" " + (ExprText(r) + t))));
    case ELen(x) =>
      LenText(x, t);
    case EParen(x) =>
      ParenText(x, t);
    case EFun(ps, body) =>
      FunText(ps, body, t);
  }

  lemma StmtStart(st: PStmt, t: string)
    requires ReadableStmt(st)
    ensures |StmtText(st) + t| > 0 && IsIdentStart((StmtText(st) + t)[0])
    ensures Solid(StmtText(st) + t)
  {
    match st
    case SReturn(e) =>
      ReturnText(e, t);
    case SAssign(ws, e) =>
      AssignText(ws, e, t);
      PathStart(ws, " " + ("=" + (" " + (ExprText(e) + t))));
    case SIndexAssign(ws, i, e) =>
      IndexAssignText(ws, i, e, t);
      PathStart(ws, "[" + (ExprText(i) + ("]" + (" " + ("=" + (" " + (ExprText(e) + t)))))));
    case SLocal(k, e) =>
      LocalText(k, e, t);
    case SIf(c, a, b) =>
      IfText(c, a, b, t);
    case SCall(ws, args) =>
      CallText(ws, args, t);
      PathStart(ws, "(" + (ArgsText(args) + (")" + t)));
  }

  /** An operator, a blank, then anything: solid text that is neither a call's `(` nor a name's `.`-segment. */
  lemma OpStart(op: BinopKind, x: string)
    ensures Solid(OpText(op) + (" " + x))
    ensures EndsPath(OpText(op) + (" " + x)) && !StartsWith(OpText(op) + (" " + x), "(")
  {
    var w := OpText(op) + (" " + x);
    assert w[0] == OpText(op)[0];
    if op.DotDot? {
      assert w[1] == '.';
    } else {
      assert w[1] == ' ' || w[1] == '=';
    }
  }

  /** An operator's text reads as that operator, however the text goes on. */
  lemma BinopKindToken(op: BinopKind, u: string)
    ensures ParseBinopKind(OpText(op) + u) == Parsed(op, u)
  {
    var s := OpText(op) + u;
    var n := |OpText(op)|;
    assert s[..n] == OpText(op) && s[n..] == u;
    assert s[0] == OpText(op)[0];
  }

  // ---------------------------------------------------------------------------
  // Keywords

  predicate AllLetters(w: string) {
    forall i :: 0 <= i < |w| ==> IsAlpha(w[i])
  }

  /** A path whose first segment does not start with a keyword, followed by a non-word character, does not either. */
  lemma PathNotKeyword(ws: seq<string>, v: string, kw: string)
    requires |ws| >= 1 && AllLetters(kw) && !StartsWith(ws[0], kw)
    requires v == [] || !IsWordChar(v[0])
    ensures !StartsWith(PathText(ws) + v, kw)
  {
    var x := DotsText(ws[1..]) + v;
    assert PathText(ws) + v == ws[0] + x;
    if x == [] {
      assert ws[0] + x == ws[0];
    } else {
      assert !IsAlpha(x[0]);
      NotPrefixAcross(ws[0], x, kw);
    }
  }

  /** The words a name must not start with are made of letters. */
  lemma KeywordLetters()
    ensures AllLetters("true") && AllLetters("false") && AllLetters("function")
    ensures AllLetters("return") && AllLetters("local") && AllLetters("if")
  {
  }

  /** A name path, followed by a non-word character, starts with none of the words some rule tries first. */
  lemma PathNoKeywords(ws: seq<string>, v: string)
    requires IsPath(ws) && (v == [] || !IsWordChar(v[0]))
    ensures !StartsWith(PathText(ws) + v, "true") && !StartsWith(PathText(ws) + v, "false")
    ensures !StartsWith(PathText(ws) + v, "function") && !StartsWith(PathText(ws) + v, "return")
    ensures !StartsWith(PathText(ws) + v, "local") && !StartsWith(PathText(ws) + v, "if")
  {
    KeywordLetters();
    PathNotKeyword(ws, v, "true");
    PathNotKeyword(ws, v, "false");
    PathNotKeyword(ws, v, "function");
    PathNotKeyword(ws, v, "return");
    PathNotKeyword(ws, v, "local");
    PathNotKeyword(ws, v, "if");
  }

  /** A name path before `(` is no function definition, no `return`, `local` or `if`, and no assignment. */
  lemma CallNotOther(ws: seq<string>, v: string)
    requires IsPath(ws) && |v| >= 2 && v[0] == '('
    ensures ParseAnonFunction(PathText(ws) + v).NoParse?
    ensures ParseReturn(PathText(ws) + v).NoParse? && ParseLocal(PathText(ws) + v).NoParse?
    ensures ParseIfThen(PathText(ws) + v).NoParse? && ParseAssign(PathText(ws) + v).NoParse?
  {
    PathNoKeywords(ws, v);
    LValueOfPath(ws, v);
    WhitespaceFixed(v);
  }

  /** A reserved word ending where the text does, or before a non-word character, is not an identifier. */
  lemma ReservedWordFails(kw: string, s: string)
    requires kw in Reserved && |kw| > 0 && AllLetters(kw)
    requires StartsWith(s, kw) && (|s| == |kw| || !IsWordChar(s[|kw|]))
    ensures ParseIdentifier(s).NoParse? && ParseNamespaced(s).NoParse?
  {
    assert s == kw + s[|kw|..];
    IdentifierToken(kw, s[|kw|..]);
  }

  /**
   * Text that starts with a whole reserved word is no assignment target:
   * every prefix the subscript rule tries starts with the same word.
   */
  lemma {:induction false} LValueFailsOnKeyword(kw: string, s: string)
    requires kw in Reserved && |kw| > 0 && AllLetters(kw)
    requires StartsWith(s, kw) && (|s| == |kw| || !IsWordChar(s[|kw|]))
    ensures ParseLValue(s).NoParse?
    decreases |s|
  {
    ReservedWordFails(kw, s);
    var idx := FindChar(s, '[');
    if idx < |s| {
      assert forall i :: 0 <= i < |kw| ==> s[i] != '[' by {
        forall i | 0 <= i < |kw| ensures s[i] != '[' {
          assert s[i] == kw[i];
        }
      }
      var p := s[..idx];
      assert |p| == |kw| || p[|kw|] == s[|kw|];
      LValueFailsOnKeyword(kw, p);
    }
  }

  /** `end` or `else` as a whole word: what closes a statement list. */
  predicate BlockEnd(w: string) {
    WholeWord(w, "end") || WholeWord(w, "else")
  }

  /** `w` starts with the word `kw`, which ends where `w` does or before a non-word character. */
  predicate WholeWord(w: string, kw: string) {
    StartsWith(w, kw) && (|w| == |kw| || !IsWordChar(w[|kw|]))
  }

  /** No statement starts at `end` or `else`. */
  lemma StmtFailsAtBlockEnd(w: string)
    requires BlockEnd(w)
    ensures ParseStmt(w).NoParse?
  {
    if WholeWord(w, "end") {
      LValueFailsOnKeyword("end", w);
      ObjectFailsOnKeyword("end", w);
    } else {
      LValueFailsOnKeyword("else", w);
      ObjectFailsOnKeyword("else", w);
    }
    assert w[0] == 'e';
    ExprFails(w);
  }

  /** A whole reserved word starting with `e` or `i` is no value and no call. */
  lemma ObjectFailsOnKeyword(kw: string, w: string)
    requires kw in Reserved && |kw| > 0 && AllLetters(kw) && (kw[0] == 'e' || kw[0] == 'i')
    requires StartsWith(w, kw) && (|w| == |kw| || !IsWordChar(w[|kw|]))
    ensures ParseObject(w).NoParse? && ParseFuncall(w).NoParse? && ParseAnonFunction(w).NoParse?
    ensures ParseBinop(w).NoParse?
  {
    ReservedWordFails(kw, w);
    assert w[0] == kw[0];
    ValueFailsAtLetter(w);
    CompositeFails(w);
  }

  /** Text that starts with `e` or `i` and is no dotted name is no value. */
  lemma ValueFailsAtLetter(w: string)
    requires |w| > 0 && (w[0] == 'e' || w[0] == 'i') && ParseNamespaced(w).NoParse?
    ensures ParseObject(w).NoParse?
  {
    LetterLead(w[0]);
    ObjectFailsAtLead(w);
  }

  /** `e` and `i` open no numeral, string, boolean or brace. */
  lemma LetterLead(c: char)
    requires c == 'e' || c == 'i'
    ensures !IsNumChar(c) && c != '"' && c != 't' && c != 'f' && c != '{'
  {
  }

  /** Neither a value nor a dotted name, and not `function`: no call, operation or function. */
  lemma CompositeFails(w: string)
    requires |w| > 0 && w[0] != 'f' && ParseNamespaced(w).NoParse? && ParseObject(w).NoParse?
    ensures ParseFuncall(w).NoParse? && ParseAnonFunction(w).NoParse? && ParseBinop(w).NoParse?
  {
    NotFunctionWord(w);
    AnonFunctionFails(w);
    BinopFails(w);
  }

  lemma NotFunctionWord(w: string)
    requires |w| > 0 && w[0] != 'f'
    ensures !StartsWith(w, "function")
  {
  }

  // ---------------------------------------------------------------------------
  // Dotted names as assignment targets

  predicate NoBracket(s: string) {
    forall i :: 0 <= i < |s| ==> s[i] != '['
  }

  lemma NoBracketConcat(a: string, b: string)
    requires NoBracket(a) && NoBracket(b)
    ensures NoBracket(a + b)
  {
  }

  lemma {:induction false} DotsNoBracket(ws: seq<string>)
    requires AllIdentifiers(ws)
    ensures NoBracket(DotsText(ws))
    decreases |ws|
  {
    if ws != [] {
      DotsNoBracket(ws[1..]);
      var a := "." + ws[0];
      assert NoBracket(a) by {
        forall i | 1 <= i < |a| ensures a[i] != '[' {
          assert a[i] == ws[0][i - 1];
        }
      }
      NoBracketConcat(a, DotsText(ws[1..]));
    }
  }

  lemma PathNoBracket(ws: seq<string>)
    requires |ws| >= 1 && AllIdentifiers(ws)
    ensures NoBracket(PathText(ws))
  {
    DotsNoBracket(ws[1..]);
    NoBracketConcat(ws[0], DotsText(ws[1..]));
  }

  /** The first `c` of `p + v`, where `p` has none and `v` starts with one, is at `|p|`. */
  lemma FindCharAfter(p: string, v: string, c: char)
    requires forall i :: 0 <= i < |p| ==> p[i] != c
    requires |v| > 0 && v[0] == c
    ensures FindChar(p + v, c) == |p|
  {
    FindCharBefore(p + v, c);
    assert (p + v)[|p|] == c;
    assert forall i :: 0 <= i < |p| ==> (p + v)[i] != c by {
      forall i | 0 <= i < |p| ensures (p + v)[i] != c {
        assert (p + v)[i] == p[i];
      }
    }
  }

  /** What may follow a dotted name that is a whole target: `(`, or a blank and then neither `[` nor `.`. */
  predicate AfterPath(v: string) {
    |v| >= 2 && (v[0] == '(' || (v[0] == ' ' && Solid(v[1..]) && v[1] != '[' && v[1] != '.'))
  }

  lemma PathSkip(v: string)
    requires AfterPath(v)
    ensures Whitespace(v) == (if v[0] == ' ' then v[1..] else v)
    ensures EndsPath(Whitespace(v)) && Whitespace(v) != [] && Whitespace(v)[0] == (if v[0] == ' ' then v[1] else v[0])
  {
    if v[0] == ' ' {
      assert v == " " + v[1..];
      BlankThenSolid(v[1..]);
    } else {
      WhitespaceFixed(v);
    }
  }

  /** A dotted name read from a `[`-free prefix of the text after it, as the subscript rule reads its base. */
  lemma PrefixBase(ws: seq<string>, v: string, j: nat)
    requires |ws| >= 1 && AllIdentifiers(ws) && AfterPath(v)
    requires (if v[0] == ' ' then 2 else 1) <= j <= |v| && NoBracket(v[..j])
    ensures ParseLValue(PathText(ws) + v[..j]) == Parsed(Dotted(ws), if v[0] == ' ' then v[1..j] else v[..j])
  {
    var d := PathText(ws);
    var u := v[..j];
    PathNoBracket(ws);
    NoBracketConcat(d, u);
    assert ParseSubscript(d + u).NoParse?;
    PrefixSkip(v, j);
    NamespacedRoundTrip(ws, u);
  }

  lemma PrefixSkip(v: string, j: nat)
    requires AfterPath(v) && (if v[0] == ' ' then 2 else 1) <= j <= |v|
    ensures Whitespace(v[..j]) == (if v[0] == ' ' then v[1..j] else v[..j])
    ensures EndsPath(Whitespace(v[..j])) && v[..j][0] == v[0]
  {
    var u := v[..j];
    if v[0] == ' ' {
      SolidPrefix(v[1..], j - 1);
      assert v[1..][..j - 1] == v[1..j];
      assert u == " " + v[1..j];
      BlankThenSolid(v[1..j]);
      assert v[1..j][0] == v[1];
    } else {
      WhitespaceFixed(u);
    }
  }

  /**
   * After a dotted name and `(`, or a blank and neither `[` nor `.`, the
   * subscript rule fails: the base it reads from before the first `[` leaves
   * text that does not start with `[`.
   */
  lemma SubscriptFailsAfterPath(ws: seq<string>, v: string)
    requires |ws| >= 1 && AllIdentifiers(ws) && AfterPath(v)
    ensures ParseSubscript(PathText(ws) + v).NoParse?
  {
    var d := PathText(ws);
    var s := d + v;
    var idx := FindChar(s, '[');
    if idx < |s| {
      BracketAfterPathFails(ws, v);
    } else {
      SubscriptFailsWithoutBracket(s);
    }
  }

  lemma BracketAfterPathFails(ws: seq<string>, v: string)
    requires |ws| >= 1 && AllIdentifiers(ws) && AfterPath(v)
    requires FindChar(PathText(ws) + v, '[') < |PathText(ws) + v|
    ensures ParseSubscript(PathText(ws) + v).NoParse?
  {
    var pre := BaseBeforeBracket(ws, v);
    SubscriptFailsAt(PathText(ws) + v, FindChar(PathText(ws) + v, '['), Dotted(ws), pre);
  }

  /** The base the subscript rule reads after a dotted name leaves text that does not start with `[`. */
  lemma BaseBeforeBracket(ws: seq<string>, v: string) returns (pre: string)
    requires |ws| >= 1 && AllIdentifiers(ws) && AfterPath(v)
    requires FindChar(PathText(ws) + v, '[') < |PathText(ws) + v|
    ensures var s := PathText(ws) + v;
      var n := FindChar(s, '[');
      && |pre| <= n && ParseLValue(s[..n]) == Parsed(Dotted(ws), pre) && s[n - |pre|] != '['
  {
    var d := PathText(ws);
    var s := d + v;
    var n := FindChar(s, '[');
    var k := if v[0] == ' ' then 2 else 1;
    var j := BracketPastPath(ws, v);
    assert n == |d| + j;
    assert s[..n] == d + v[..j];
    PrefixBase(ws, v, j);
    pre := if v[0] == ' ' then v[1..j] else v[..j];
    assert n - |pre| == |d| + k - 1;
  }

  /**
   * A `[` after a dotted name and what `AfterPath` allows lies past the
   * character after the name, so the text before it is the name and a
   * `[`-free run.
   */
  lemma BracketPastPath(ws: seq<string>, v: string) returns (j: nat)
    requires |ws| >= 1 && AllIdentifiers(ws) && AfterPath(v)
    requires FindChar(PathText(ws) + v, '[') < |PathText(ws) + v|
    ensures var d, k := PathText(ws), if v[0] == ' ' then 2 else 1;
      && j == FindChar(d + v, '[') - |d| && k <= j <= |v| && NoBracket(v[..j])
      && (d + v)[..|d| + j] == d + v[..j] && (d + v)[|d| + k - 1] != '['
  {
    var d := PathText(ws);
    var s := d + v;
    var idx := FindChar(s, '[');
    var k := if v[0] == ' ' then 2 else 1;
    PathNoBracket(ws);
    assert s[|d|] == v[0];
    assert k == 2 ==> s[|d| + 1] == v[1];
    assert forall i :: 0 <= i < |d| ==> s[i] != '[' by {
      forall i | 0 <= i < |d| ensures s[i] != '[' {
        assert s[i] == d[i];
      }
    }
    assert idx >= |d| + k;
    j := idx - |d|;
    assert s[..idx] == d + v[..j];
    FindCharBefore(s, '[');
    assert NoBracket(v[..j]) by {
      forall i | 0 <= i < j ensures v[..j][i] != '[' {
        assert v[..j][i] == s[|d| + i];
      }
    }
  }

  /** A dotted name before `(`, or before a blank and neither `[` nor `.`, is the whole target. */
  lemma LValueOfPath(ws: seq<string>, v: string)
    requires |ws| >= 1 && AllIdentifiers(ws) && AfterPath(v)
    ensures ParseLValue(PathText(ws) + v) == Parsed(Dotted(ws), Whitespace(v))
  {
    SubscriptFailsAfterPath(ws, v);
    PathSkip(v);
    NamespacedRoundTrip(ws, v);
  }

  /** A dotted name alone is a whole target. */
  lemma LValueOfWholePath(ws: seq<string>)
    requires |ws| >= 1 && AllIdentifiers(ws)
    ensures ParseLValue(PathText(ws)) == Parsed(Dotted(ws), [])
  {
    var d := PathText(ws);
    PathNoBracket(ws);
    assert ParseSubscript(d).NoParse?;
    NamespacedRoundTrip(ws, []);
    WhitespaceFixed([]);
    assert d + [] == d;
  }

  // ---------------------------------------------------------------------------
  // The value rule on names

  /**
   * A value operand followed by text that cannot extend it reads as a value
   * up to that text, and neither the function rule nor the call rule applies.
   */
  lemma OperandObject(l: PExpr, u: string)
    requires (l.ELit? || l.EVar?) && ReadableExpr(l)
    requires (u == [] || !IsWordChar(u[0])) && EndsValue(u)
    requires EndsPath(Whitespace(u)) && !StartsWith(Whitespace(u), "(")
    ensures ToExpr(l).Literal? && ParseObject(ExprText(l) + u) == Parsed(ToExpr(l).obj, Whitespace(u))
    ensures ParseAnonFunction(ExprText(l) + u).NoParse? && ParseFuncall(ExprText(l) + u).NoParse?
    ensures !StartsWith(ExprText(l) + u, "#") && !StartsWith(ExprText(l) + u, "(")
  {
    match l
    case ELit(d) => LitOperand(d, u);
    case EVar(ws) => VarOperand(ws, u);
  }

  lemma LitOperand(d: DataLit, u: string)
    requires Printable(d)
    requires (u == [] || !IsWordChar(u[0])) && EndsValue(u)
    ensures ParseObject(Print(d) + u) == Parsed(AsParsed(d), Whitespace(u))
    ensures ParseAnonFunction(Print(d) + u).NoParse? && ParseFuncall(Print(d) + u).NoParse?
    ensures !StartsWith(Print(d) + u, "#") && !StartsWith(Print(d) + u, "(")
  {
    var s := Print(d) + u;
    ObjectRoundTrip(d, u);
    PrintedIsNoCall(d, u);
    AnonFunctionFails(s);
    FuncallFails(s);
  }

  lemma VarOperand(ws: seq<string>, u: string)
    requires IsPath(ws)
    requires (u == [] || !IsWordChar(u[0]))
    requires EndsPath(Whitespace(u)) && !StartsWith(Whitespace(u), "(")
    ensures ParseObject(PathText(ws) + u) == Parsed(LuaObject.Expr(Var(ws)), Whitespace(u))
    ensures ParseAnonFunction(PathText(ws) + u).NoParse? && ParseFuncall(PathText(ws) + u).NoParse?
    ensures !StartsWith(PathText(ws) + u, "#") && !StartsWith(PathText(ws) + u, "(")
  {
    var s := PathText(ws) + u;
    NamespacedRoundTrip(ws, u);
    PathNoValueKeyword(ws, u);
    ObjectIsVar(s, ws, Whitespace(u));
    AnonFunctionFails(s);
    WhitespaceIdempotent(u);
    FuncallFailsWithoutParen(s, ws, Whitespace(u));
  }

  /** A name path is neither a numeral nor a boolean, and does not start with `function`. */
  lemma PathNoValueKeyword(ws: seq<string>, u: string)
    requires IsPath(ws) && (u == [] || !IsWordChar(u[0]))
    ensures |PathText(ws) + u| > 0 && IsIdentStart((PathText(ws) + u)[0])
    ensures ParseNum(PathText(ws) + u).NoParse? && ParseBool(PathText(ws) + u).NoParse?
    ensures !StartsWith(PathText(ws) + u, "function")
  {
    PathStart(ws, u);
    PathNoKeywords(ws, u);
    NumFails(PathText(ws) + u);
  }

  /** A name path before the end of an expression reads as a variable reference. */
  lemma VarRoundTrip(ws: seq<string>, t: string)
    requires IsPath(ws) && EndsExpr(t)
    ensures ParseExpr(PathText(ws) + t) == Parsed(Literal(LuaObject.Expr(Var(ws))), Whitespace(t))
  {
    EndsExprSkip(t);
    OperandObject(EVar(ws), t);
    ValueIsExpr(PathText(ws) + t, LuaObject.Expr(Var(ws)), Whitespace(t));
  }

  // ---------------------------------------------------------------------------
  // Which alternative of the expression rule applies

  lemma ExprIsFuncall(s: string)
    requires ParseAnonFunction(s).NoParse? && ParseFuncall(s).Parsed?
    ensures ParseExpr(s) == ParseFuncall(s)
  {
  }

  lemma ExprIsBinop(s: string)
    requires ParseAnonFunction(s).NoParse? && ParseFuncall(s).NoParse? && ParseBinop(s).Parsed?
    ensures ParseExpr(s) == ParseBinop(s)
  {
  }

  /** On `#`, `(` or `)` no value starts, so none of the first three expression alternatives applies. */
  lemma PunctNoValue(s: string)
    requires |s| > 0 && (s[0] == '#' || s[0] == '(' || s[0] == ')')
    ensures ParseAnonFunction(s).NoParse? && ParseFuncall(s).NoParse?
    ensures ParseObject(s).NoParse? && ParseBinop(s).NoParse?
  {
    NoToken(s);
    assert !StartsWith(s, "function");
  }

  /** A character that starts no numeral, boolean, string, table or name starts no value. */
  lemma NoToken(s: string)
    requires |s| > 0 && !IsNumChar(s[0]) && !IsIdentStart(s[0]) && s[0] != '"' && s[0] != '{'
    ensures ParseObject(s).NoParse? && ParseIdentifier(s).NoParse? && ParseNamespaced(s).NoParse?
  {
    NumFails(s);
    StrFails(s);
    assert !StartsWith(s, "true") && !StartsWith(s, "false") && !StartsWith(s, "{");
  }

  lemma ExprIsUnop(s: string)
    requires |s| > 0 && s[0] == '#' && ParseUnop(s).Parsed?
    ensures ParseExpr(s) == ParseUnop(s)
  {
    PunctNoValue(s);
  }

  lemma ExprIsParen(s: string)
    requires |s| > 0 && s[0] == '(' && ParseParen(s).Parsed?
    ensures ParseExpr(s) == ParseParen(s)
  {
    PunctNoValue(s);
    assert ParseUnop(s).NoParse?;
  }

  lemma ExprFailsOnParen(s: string)
    requires |s| > 0 && s[0] == ')'
    ensures ParseExpr(s).NoParse?
  {
    PunctNoValue(s);
    ExprFails(s);
  }

  lemma ExprList0Cons(s: string, e: LuaExpr, r: string, es: seq<LuaExpr>, t: string)
    requires ParseExpr(s) == Parsed(e, r) && ExprTail(r) == (es, t)
    ensures ParseExprList0(s) == ([e] + es, t)
  {
  }

  // ---------------------------------------------------------------------------
  // Which alternative of the statement rule applies

  lemma StmtIsReturn(s: string)
    requires ParseReturn(s).Parsed?
    ensures ParseStmt(s) == ParseReturn(s)
  {
  }

  lemma StmtIsAssign(s: string)
    requires ParseReturn(s).NoParse? && ParseAssign(s).Parsed?
    ensures ParseStmt(s) == ParseAssign(s)
  {
  }

  lemma StmtIsLocal(s: string, k: string, e: LuaExpr, rest: string)
    requires ParseReturn(s).NoParse? && ParseAssign(s).NoParse?
    requires ParseLocal(s) == Parsed((k, e), rest)
    ensures ParseStmt(s) == Parsed(Assign(Dotted([k]), e), rest)
  {
  }

  lemma StmtIsIf(s: string)
    requires ParseReturn(s).NoParse? && ParseAssign(s).NoParse? && ParseLocal(s).NoParse?
    requires ParseIfThen(s).Parsed?
    ensures ParseStmt(s) == ParseIfThen(s)
  {
  }

  lemma StmtIsExpr(s: string, e: LuaExpr, rest: string)
    requires ParseReturn(s).NoParse? && ParseAssign(s).NoParse? && ParseLocal(s).NoParse?
    requires ParseIfThen(s).NoParse? && ParseExpr(s) == Parsed(e, rest)
    ensures ParseStmt(s) == Parsed(LuaStmt.Expr(e), rest)
  {
  }

  lemma StmtList1Cons(s: string, st: LuaStmt, r: string, sts: seq<LuaStmt>, t: string)
    requires ParseStmt(s) == Parsed(st, r) && StmtMany(r) == (sts, t)
    ensures ParseStmtList1(s) == Parsed([st] + sts, t)
  {
  }

  lemma StmtManyCons(s: string, st: LuaStmt, r: string, sts: seq<LuaStmt>, t: string)
    requires ParseStmt(s) == Parsed(st, r) && StmtMany(r) == (sts, t)
    ensures StmtMany(s) == ([st] + sts, t)
  {
  }

  lemma StmtManyStop(s: string)
    requires ParseStmt(s).NoParse?
    ensures StmtMany(s) == ([], s)
  {
  }

  /** A target, then `=` with nothing to skip before it, then an expression. */
  lemma AssignStep(s: string, target: LValue, x: string, e: LuaExpr, rest: string)
    requires ParseLValue(s) == Parsed(target, "=" + (" " + x))
    requires Solid(x) && ParseExpr(x) == Parsed(e, rest)
    ensures ParseAssign(s) == Parsed(Assign(target, e), rest)
  {
    var w := "=" + (" " + x);
    WhitespaceFixed(w);
    assert w[1..] == " " + x;
    BlankThenSolid(x);
  }

  // ---------------------------------------------------------------------------
  // Where lists and blocks end

  /** What may follow a statement: nothing, or one blank and then a word. */
  predicate EndsStmt(t: string) {
    t == [] || (|t| >= 2 && t[0] == ' ' && IsIdentStart(t[1]))
  }

  /** What closes a statement list: one blank, then `end` or `else` as a whole word. */
  predicate ClosesBlock(t: string) {
    |t| >= 2 && t[0] == ' ' && BlockEnd(t[1..])
  }

  lemma EndsStmtExpr(t: string)
    requires EndsStmt(t)
    ensures EndsExpr(t) && (t == [] || !IsWordChar(t[0]))
  {
  }

  /** Skipping after an expression's reading skips what skipping after its text would. */
  lemma AfterSkip(e: PExpr, t: string)
    ensures Whitespace(After(e, t)) == Whitespace(t)
  {
    WhitespaceIdempotent(t);
  }

  /** A list closer stays where the expression before it left it. */
  lemma AfterFollow(e: PExpr, t: string)
    requires Follows(t) || (|t| > 0 && t[0] == ']')
    ensures After(e, t) == t
  {
    WhitespaceFixed(t);
  }

  lemma ArgsStart(args: seq<PExpr>, u: string)
    requires ReadableExprs(args) && |u| > 0 && u[0] == ')'
    ensures Whitespace(ArgsText(args) + u) == ArgsText(args) + u
  {
    if args == [] {
      WhitespaceFixed(u);
    } else {
      ArgsTextCons(args, u);
      ExprStart(args[0], ArgTail(args[1..]) + u);
      WhitespaceFixed(ArgsText(args) + u);
    }
  }

  lemma ArgTailFollows(es: seq<PExpr>, u: string)
    requires |u| > 0 && u[0] == ')'
    ensures Follows(ArgTail(es) + u)
  {
    if es != [] {
      ArgTailCons(es, u);
    }
  }

  lemma ListStart(ps: seq<string>, u: string)
    requires AllIdentifiers(ps) && |u| > 0 && u[0] == ')'
    ensures Whitespace(ListText(ps) + u) == ListText(ps) + u
  {
    if ps == [] {
      assert ListText(ps) + u == u;
      WhitespaceFixed(u);
    } else {
      var w := ps[0] + (ListTail(ps[1..]) + u);
      assert ListText(ps) == ps[0] + ListTail(ps[1..]);
      Regroup(ps[0], ListTail(ps[1..]), u);
      assert IsIdentifier(ps[0]);
      assert w[0] == ps[0][0];
      WhitespaceFixed(w);
    }
  }

  lemma StmtsStart(ss: seq<PStmt>, u: string)
    requires |ss| >= 1 && ReadableStmts(ss)
    ensures Solid(StmtsText(ss) + u)
  {
    StmtsTextCons(ss, u);
    StmtStart(ss[0], StmtTail(ss[1..]) + u);
  }

  lemma StmtTailEnds(ss: seq<PStmt>, t: string)
    requires ReadableStmts(ss) && ClosesBlock(t)
    ensures EndsStmt(StmtTail(ss) + t)
  {
    if ss != [] {
      StmtTailCons(ss, t);
      StmtStart(ss[0], StmtTail(ss[1..]) + t);
    } else {
      assert t[1] == 'e';
    }
  }

  /** ` end` closes a block when the word ends there. */
  lemma EndCloses(t: string)
    requires t == [] || !IsWordChar(t[0])
    ensures ClosesBlock(" end" + t) && (" end" + t)[1..] == "end" + t
    ensures StartsWith("end" + t, "end") && !StartsWith("end" + t, "else") && ("end" + t)[3..] == t
  {
    var w := "end" + t;
    assert (" end" + t)[1..] == w;
    assert w[1] == 'n';
    assert |w| == 3 || w[3] == t[0];
  }

  /** What follows the statements of a then-branch closes it. */
  lemma ElseCloses(b: seq<PStmt>, t: string)
    requires t == [] || !IsWordChar(t[0])
    ensures ClosesBlock(ElseText(b) + (" end" + t))
  {
    if b == [] {
      EndCloses(t);
    } else {
      ElseTextCons(b, " end" + t);
      var w := "else" + (" " + (StmtsText(b) + (" end" + t)));
      assert w[4] == ' ';
      assert (ElseText(b) + (" end" + t))[1..] == w;
    }
  }

  /** The blank after a statement list closed by `t` is all the skipper removes. */
  lemma CloserSkip(t: string)
    requires ClosesBlock(t)
    ensures Whitespace(t) == t[1..] && ParseStmt(t[1..]).NoParse?
  {
    assert t == " " + t[1..];
    assert t[1] == 'e';
    BlankThenSolid(t[1..]);
    StmtFailsAtBlockEnd(t[1..]);
  }

  /** After `local` and a blank comes a name, not `=`, so the assignment rule reads `local` as a target and then fails. */
  lemma LocalNotAssign(k: string, z: string)
    requires IsIdentifier(k)
    ensures ParseReturn("local" + (" " + (k + z))).NoParse?
    ensures ParseAssign("local" + (" " + (k + z))).NoParse?
  {
    var v := " " + (k + z);
    assert (k + z)[0] == k[0];
    assert v[1..] == k + z;
    assert PathText(["local"]) == "local";
    assert IsIdentifier("local");
    LValueOfPath(["local"], v);
    BlankThenSolid(k + z);
  }

  /** At `if` as a whole word, neither `return`, an assignment nor `local` applies. */
  lemma IfNotOther(s: string)
    requires WholeWord(s, "if")
    ensures ParseReturn(s).NoParse? && ParseAssign(s).NoParse? && ParseLocal(s).NoParse?
  {
    LValueFailsOnKeyword("if", s);
  }

  // ---------------------------------------------------------------------------
  // One rule step around an already-read part

  /** A value operand, an operator, then text that reads as the right operand. */
  lemma BinopStep(l: PExpr, op: BinopKind, x: string, rhs: LuaExpr, rest: string)
    requires (l.ELit? || l.EVar?) && ReadableExpr(l)
    requires Solid(x) && ParseExpr(x) == Parsed(rhs, rest)
    ensures ParseBinop(ExprText(l) + (" " + (OpText(op) + (" " + x)))) == Parsed(Binop(op, ToExpr(l), rhs), rest)
    ensures ParseExpr(ExprText(l) + (" " + (OpText(op) + (" " + x)))) == Parsed(Binop(op, ToExpr(l), rhs), rest)
  {
    var w := OpText(op) + (" " + x);
    var u := " " + w;
    var s := ExprText(l) + u;
    OpStart(op, x);
    BlankLead(w);
    BlankThenSolid(w);
    OperandObject(l, u);
    BinopKindToken(op, " " + x);
    BlankThenSolid(x);
    BinopParts(s, ToExpr(l).obj, w, op, " " + x, x, rhs, rest);
    ExprIsBinop(s);
  }

  /** One blank in front: no word, numeral or value goes on into it. */
  lemma BlankLead(w: string)
    ensures !IsWordChar((" " + w)[0]) && EndsValue(" " + w)
  {
  }

  /** A target not starting with `return`, ` = `, then text that reads as the value. */
  lemma AssignStmtStep(s: string, target: LValue, x: string, e: LuaExpr, rest: string)
    requires !StartsWith(s, "return") && ParseLValue(s) == Parsed(target, "=" + (" " + x))
    requires Solid(x) && ParseExpr(x) == Parsed(e, rest)
    ensures ParseAssign(s) == Parsed(Assign(target, e), rest)
    ensures ParseStmt(s) == Parsed(Assign(target, e), rest)
  {
    AssignStep(s, target, x, e, rest);
    StmtIsAssign(s);
  }

  /** A name path, then text from `[` on that reads as the target up to ` = `, then the value. */
  lemma IndexAssignStep(ws: seq<string>, v: string, target: LValue, x: string, e: LuaExpr, rest: string)
    requires IsPath(ws) && |v| > 0 && v[0] == '['
    requires ParseLValue(PathText(ws) + v) == Parsed(target, "=" + (" " + x))
    requires Solid(x) && ParseExpr(x) == Parsed(e, rest)
    ensures ParseAssign(PathText(ws) + v) == Parsed(Assign(target, e), rest)
    ensures ParseStmt(PathText(ws) + v) == Parsed(Assign(target, e), rest)
  {
    PathNoKeywords(ws, v);
    AssignStmtStep(PathText(ws) + v, target, x, e, rest);
  }

  /** Text with no `[`, then `[x]` and `u`: the first `[` is the one after the text. */
  lemma SubscriptAt(d: string, x: string, u: string)
    requires NoBracket(d)
    ensures var s := d + ("[" + (x + ("]" + u)));
      FindChar(s, '[') == |d| && s[..|d|] == d && s[|d|..] == "[" + (x + ("]" + u))
  {
    var s := d + ("[" + (x + ("]" + u)));
    FindCharAfter(d, "[" + (x + ("]" + u)), '[');
    assert s[..|d|] == d;
    assert s[|d|..] == "[" + (x + ("]" + u));
  }

  /** A name path, ` = `, then text that reads as the value. */
  lemma PathAssignStep(ws: seq<string>, x: string, e: LuaExpr, rest: string)
    requires IsPath(ws) && Solid(x) && ParseExpr(x) == Parsed(e, rest)
    ensures ParseAssign(PathText(ws) + (" " + ("=" + (" " + x)))) == Parsed(Assign(Dotted(ws), e), rest)
    ensures ParseStmt(PathText(ws) + (" " + ("=" + (" " + x)))) == Parsed(Assign(Dotted(ws), e), rest)
  {
    var z := "=" + (" " + x);
    var v := " " + z;
    assert v[1..] == z && z[0] == '=';
    LValueOfPath(ws, v);
    BlankThenSolid(z);
    PathNoKeywords(ws, v);
    AssignStmtStep(PathText(ws) + v, Dotted(ws), x, e, rest);
  }

  /** `local`, a name, ` = `, then text that reads as the value. */
  lemma LocalStep(k: string, x: string, e: LuaExpr, rest: string)
    requires IsIdentifier(k) && Solid(x) && ParseExpr(x) == Parsed(e, rest)
    ensures ParseLocal("local" + (" " + (k + (" " + ("=" + (" " + x)))))) == Parsed((k, e), Whitespace(rest))
    ensures ParseStmt("local" + (" " + (k + (" " + ("=" + (" " + x)))))) == Parsed(Assign(Dotted([k]), e), Whitespace(rest))
  {
    var z := " " + ("=" + (" " + x));
    LocalRuleStep(k, x, e, rest);
    LocalNotAssign(k, z);
    StmtIsLocal("local" + (" " + (k + z)), k, e, Whitespace(rest));
  }

  lemma LocalRuleStep(k: string, x: string, e: LuaExpr, rest: string)
    requires IsIdentifier(k) && Solid(x) && ParseExpr(x) == Parsed(e, rest)
    ensures ParseLocal("local" + (" " + (k + (" " + ("=" + (" " + x)))))) == Parsed((k, e), Whitespace(rest))
  {
    var y := "=" + (" " + x);
    var z := " " + y;
    var s := "local" + (" " + (k + z));
    KeywordThen("local", " " + (k + z));
    SignThen(x);
    NameThen(k, z);
    LocalParts(s, k, z, y, x, e, rest);
  }

  /** ` = x` skips to `= x`, which starts with `=` and goes on to `x`. */
  lemma SignThen(x: string)
    requires Solid(x)
    ensures var y := "=" + (" " + x);
      && !IsWordChar((" " + y)[0]) && Whitespace(" " + y) == y && Whitespace(y) == y
      && StartsWith(y, "=") && Whitespace(y[1..]) == x
  {
    var y := "=" + (" " + x);
    assert y[1..] == " " + x;
    BlankThenSolid(y);
    SolidFixed(y);
    BlankThenSolid(x);
  }

  lemma LocalParts(s: string, k: string, z: string, y: string, x: string, e: LuaExpr, rest: string)
    requires StartsWith(s, "local") && Whitespace(s[5..]) == k + z
    requires ParseIdentifier(k + z) == Parsed(k, Whitespace(z)) && Whitespace(z) == y && Whitespace(y) == y
    requires StartsWith(y, "=") && Whitespace(y[1..]) == x && ParseExpr(x) == Parsed(e, rest)
    ensures ParseLocal(s) == Parsed((k, e), Whitespace(rest))
  {
  }

  /** At `if` as a whole word, a conditional the conditional rule reads is the statement. */
  lemma IfStmtStep(s: string, st: LuaStmt, rest: string)
    requires WholeWord(s, "if") && ParseIfThen(s) == Parsed(st, rest)
    ensures ParseStmt(s) == Parsed(st, rest)
  {
    IfNotOther(s);
    StmtIsIf(s);
  }

  /** After the then-branch, `else`, statements and `end`. */
  lemma IfElseCase(s: string, cond: LuaExpr, s1: string, thenBody: seq<LuaStmt>, w: string, elseBody: seq<LuaStmt>, t: string)
    requires StartsWith(s, "if") && ParseExpr(Whitespace(s[2..])) == Parsed(cond, s1)
    requires StartsWith(s1, "then") && ParseStmtList1(Whitespace(s1[4..])) == Parsed(thenBody, w)
    requires StartsWith(w, "else") && ParseStmtList1(Whitespace(w[4..])) == Parsed(elseBody, "end" + t)
    ensures ParseIfThen(s) == Parsed(IfThen(cond, thenBody, elseBody), Whitespace(t))
  {
    assert ("end" + t)[3..] == t;
  }

  /** After the then-branch, `end` alone: the else-branch is empty. */
  lemma IfEndCase(s: string, cond: LuaExpr, s1: string, thenBody: seq<LuaStmt>, w: string, t: string)
    requires StartsWith(s, "if") && ParseExpr(Whitespace(s[2..])) == Parsed(cond, s1)
    requires StartsWith(s1, "then") && ParseStmtList1(Whitespace(s1[4..])) == Parsed(thenBody, w)
    requires !StartsWith(w, "else") && StartsWith(w, "end") && w[3..] == t
    ensures ParseIfThen(s) == Parsed(IfThen(cond, thenBody, []), Whitespace(t))
  {
  }

  /**
   * `if`, text reading as the condition up to `then`, and text reading as the
   * then-branch: the conditional rule reads these parts.
   */
  lemma IfHead(x: string, cond: LuaExpr, b: string, thenBody: seq<LuaStmt>, w: string)
    requires Solid(x) && ParseExpr(x) == Parsed(cond, "then" + (" " + b))
    requires Solid(b) && ParseStmtList1(b) == Parsed(thenBody, w)
    ensures WholeWord("if" + (" " + x), "if") && StartsWith("then" + (" " + b), "then")
    ensures ParseExpr(Whitespace(("if" + (" " + x))[2..])) == Parsed(cond, "then" + (" " + b))
    ensures ParseStmtList1(Whitespace(("then" + (" " + b))[4..])) == Parsed(thenBody, w)
  {
    var s := "if" + (" " + x);
    assert s[2] == ' ';
    assert s[2..] == " " + x;
    BlankThenSolid(x);
    assert ("then" + (" " + b))[4..] == " " + b;
    BlankThenSolid(b);
  }

  /** `function`, a blank, a name, then text the function rule reads. */
  lemma NamedFunctionStep(name: string, r: string, f: LuaFunction, rest: string)
    requires IsIdentifier(name) && |r| > 0 && r[0] == '(' && ParseFunctionRest(r) == Parsed(f, rest)
    ensures ParseNamedFunction("function" + (" " + (name + r))) == Parsed((name, f), rest)
  {
    var s := "function" + (" " + (name + r));
    KeywordThen("function", " " + (name + r));
    ParenLead(r);
    NameThen(name, r);
    NamedFunctionParts(s, name, r, f, rest);
  }

  /** Text after a keyword is what follows the keyword. */
  lemma KeywordThen(kw: string, x: string)
    ensures StartsWith(kw + x, kw) && (kw + x)[|kw|..] == x
  {
    assert (kw + x)[|kw|..] == x;
  }

  /** A name, with one blank before it, reads as itself up to `r`. */
  lemma NameThen(name: string, r: string)
    requires IsIdentifier(name) && (r == [] || !IsWordChar(r[0]))
    ensures Whitespace(" " + (name + r)) == name + r
    ensures ParseIdentifier(name + r).NoParse? <==> name in Reserved
    ensures name !in Reserved ==> ParseIdentifier(name + r) == Parsed(name, Whitespace(r))
  {
    assert (name + r)[0] == name[0];
    BlankThenSolid(name + r);
    IdentifierToken(name, r);
  }

  /** `(` is no word character, and no blank or comment is skipped before it. */
  lemma ParenLead(r: string)
    requires |r| > 0 && r[0] == '('
    ensures !IsWordChar(r[0]) && Whitespace(r) == r
  {
    WhitespaceFixed(r);
  }

  lemma NamedFunctionParts(s: string, name: string, r: string, f: LuaFunction, rest: string)
    requires StartsWith(s, "function") && Whitespace(s[8..]) == name + r
    requires ParseIdentifier(name + r) == Parsed(name, r)
    requires ParseFunctionRest(r) == Parsed(f, rest) && Whitespace(r) == r
    ensures ParseNamedFunction(s) == Parsed((name, f), rest)
  {
  }

  /** A top-level item that starts with `l` and reads as a `local` binding binds that local. */
  lemma TopLevelLocalStep(ctx: LuaContext, s: string, k: string, e: LuaExpr, rest: string)
    requires |s| > 0 && s[0] == 'l' && ParseLocal(s) == Parsed((k, e), rest)
    ensures ParseTopLevel(ctx, s) == (ctx.(locals := ctx.locals[k := e]), Parsed((), rest))
  {
    assert ParseDataExtend(s).NoParse?;
  }

  /** A top-level item that starts with `f` and reads as a named function binds that function. */
  lemma TopLevelFunctionStep(ctx: LuaContext, s: string, name: string, f: LuaFunction, rest: string)
    requires |s| > 0 && s[0] == 'f' && ParseNamedFunction(s) == Parsed((name, f), rest)
    ensures ParseTopLevel(ctx, s) == (ctx.(functions := ctx.functions[name := f]), Parsed((), rest))
  {
    NotDataNorLocal(s);
  }

  lemma NotDataNorLocal(s: string)
    requires |s| > 0 && s[0] == 'f'
    ensures ParseDataExtend(s).NoParse? && ParseLocal(s).NoParse?
  {
    assert !StartsWith(s, "data:extend(") && !StartsWith(s, "local");
  }
}
