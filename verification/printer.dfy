/**
 * Data literals as the game's data files write them (booleans, strings,
 * 64-bit integers, non-empty arrays, and tables with plain keys), their
 * compact text, and the proof that the grammar reads that text back: the
 * value rule yields the literal with every element and field value wrapped as
 * an expression, and simplifying that yields the literal itself.
 */
module Printer {
  import opened LuaAst
  import opened Lexer
  import opened Grammar
  import opened GrammarSteps

  datatype DataLit =
    | DBool(b: bool)
    | DStr(s: string)
    | DInt(i: int)
    | DArray(items: seq<DataLit>)
    | DMap(fields: seq<(string, DataLit)>)

  /**
   * A table key the printer may write bare: an identifier that does not start
   * with `true` or `false` (the boolean token has no word-boundary check).
   */
  predicate IsKey(k: string) {
    IsIdentifier(k) && !StartsWith(k, "true") && !StartsWith(k, "false")
  }

  /**
   * Literals whose text the grammar reads back: strings without `"` or `\`,
   * integers in the signed 64-bit range, arrays with at least one element
   * (`{}` reads as an empty table), and tables with bare keys.
   */
  predicate Printable(d: DataLit) {
    match d
    case DBool(_) => true
    case DStr(s) => forall i :: 0 <= i < |s| ==> IsStrChar(s[i])
    case DInt(i) => I64Min <= i <= I64Max
    case DArray(items) => |items| >= 1 && PrintableItems(items)
    case DMap(fs) => PrintableFields(fs)
  }

  predicate PrintableItems(xs: seq<DataLit>) {
    xs == [] || (Printable(xs[0]) && PrintableItems(xs[1..]))
  }

  predicate PrintableField(f: (string, DataLit)) {
    IsKey(f.0) && Printable(f.1)
  }

  predicate PrintableFields(fs: seq<(string, DataLit)>) {
    fs == [] || (PrintableField(fs[0]) && PrintableFields(fs[1..]))
  }

  // ---------------------------------------------------------------------------
  // Text

  function Print(d: DataLit): string {
    match d
    case DBool(b) => BoolText(b)
    case DStr(s) => ['"'] + s + ['"']
    case DInt(i) => IntText(i)
    case DArray(items) => "{" + PrintItems(items) + "}"
    case DMap(fs) => "{" + PrintFields(fs) + "}"
  }

  function PrintItems(xs: seq<DataLit>): string {
    if xs == [] then "" else Print(xs[0]) + PrintTail(xs[1..])
  }

  /** Each element preceded by `,`. */
  function PrintTail(xs: seq<DataLit>): string {
    if xs == [] then "" else "," + Print(xs[0]) + PrintTail(xs[1..])
  }

  function PrintField(f: (string, DataLit)): string {
    f.0 + "=" + Print(f.1)
  }

  function PrintFields(fs: seq<(string, DataLit)>): string {
    if fs == [] then "" else PrintField(fs[0]) + PrintFieldTail(fs[1..])
  }

  function PrintFieldTail(fs: seq<(string, DataLit)>): string {
    if fs == [] then "" else "," + PrintField(fs[0]) + PrintFieldTail(fs[1..])
  }

  // ---------------------------------------------------------------------------
  // Values

  /** The value the grammar builds for a literal: composite members wrapped as expressions. */
  function AsParsed(d: DataLit): LuaObject {
    match d
    case DBool(b) => Bool(b)
    case DStr(s) => Str(s)
    case DInt(i) => Int(i)
    case DArray(items) => Array(WrapAll(ElemExprs(items)))
    case DMap(fs) => Map(FieldsToMap(FieldPairs(fs)))
  }

  function ElemExprs(xs: seq<DataLit>): (r: seq<LuaExpr>)
    ensures |r| == |xs|
  {
    seq(|xs|, i requires 0 <= i < |xs| => Literal(AsParsed(xs[i])))
  }

  function FieldPairs(fs: seq<(string, DataLit)>): (r: seq<(string, LuaObject)>)
    ensures |r| == |fs|
  {
    seq(|fs|, i requires 0 <= i < |fs| => FieldPair(fs[i]))
  }

  function FieldPair(f: (string, DataLit)): (string, LuaObject) {
    (f.0, LuaObject.Expr(Literal(AsParsed(f.1))))
  }

  /** The value a literal denotes, with no expression wrappers. */
  function ToObject(d: DataLit): LuaObject {
    match d
    case DBool(b) => Bool(b)
    case DStr(s) => Str(s)
    case DInt(i) => Int(i)
    case DArray(items) => Array(ToObjects(items))
    case DMap(fs) => Map(FieldsToMap(ToFields(fs)))
  }

  function ToObjects(xs: seq<DataLit>): (r: seq<LuaObject>)
    ensures |r| == |xs|
  {
    seq(|xs|, i requires 0 <= i < |xs| => ToObject(xs[i]))
  }

  function ToFields(fs: seq<(string, DataLit)>): (r: seq<(string, LuaObject)>)
    ensures |r| == |fs|
  {
    seq(|fs|, i requires 0 <= i < |fs| => ToField(fs[i]))
  }

  function ToField(f: (string, DataLit)): (string, LuaObject) {
    (f.0, ToObject(f.1))
  }

  // ---------------------------------------------------------------------------
  // How printed text starts

  /** The first characters of a printed value. */
  predicate ValueStart(s: string) {
    && |s| >= 1
    && (|| s[0] == 't' || s[0] == 'f' || s[0] == '"' || s[0] == '{' || IsDigit(s[0])
        || (s[0] == '-' && |s| >= 2 && IsDigit(s[1])))
  }

  lemma PrintStartsValue(d: DataLit, t: string)
    ensures ValueStart(Print(d) + t)
    ensures (Print(d) + t)[0] == 't' || (Print(d) + t)[0] == 'f' ==> d.DBool?
  {
    match d
    case DInt(i) =>
      var n := NatText(if i < 0 then -i else i);
      assert IsDigit(n[0]);
      if i < 0 {
        assert (Print(d) + t)[1] == n[0];
      } else {
        assert (Print(d) + t)[0] == n[0];
      }
    case DBool(b) =>
    case _ =>
  }

  lemma NoSkipBeforeValue(s: string)
    requires ValueStart(s)
    ensures Whitespace(s) == s
  {
    WhitespaceFixed(s);
  }

  /** What follows a printed element or field inside its list: `,` or the closing text. */
  lemma TailStart(xs: seq<DataLit>, t: string)
    requires StartsWith(t, "}")
    ensures |PrintTail(xs) + t| > 0
    ensures (PrintTail(xs) + t)[0] == (if xs == [] then '}' else ',')
  {
  }

  lemma FieldTailStart(fs: seq<(string, DataLit)>, t: string)
    requires StartsWith(t, "}")
    ensures |PrintFieldTail(fs) + t| > 0
    ensures (PrintFieldTail(fs) + t)[0] == (if fs == [] then '}' else ',')
  {
  }

  /**
   * Printed literals start with none of the alternatives the expression rule
   * tries before plain values: not an identifier (booleans are reserved words),
   * not `function`, not `#`, not `(`.
   */
  lemma PrintedIsNoCall(d: DataLit, t: string)
    requires t == [] || !IsWordChar(t[0])
    ensures ParseIdentifier(Print(d) + t).NoParse?
    ensures !StartsWith(Print(d) + t, "function")
    ensures !StartsWith(Print(d) + t, "#") && !StartsWith(Print(d) + t, "(")
  {
    var s := Print(d) + t;
    PrintStartsValue(d, t);
    if d.DBool? {
      IdentifierToken(BoolText(d.b), t);
      if !d.b {
        assert s == "false" + t;
        assert s[1] == 'a';
      }
    } else {
      assert !IsIdentStart(s[0]) && s[0] != 'f';
    }
  }

  /** `w` is not a prefix of `k + v` when it is not one of `k` and `v` starts with a character `w` lacks. */
  lemma NotPrefixAcross(k: string, v: string, w: string)
    requires |v| > 0 && forall i :: 0 <= i < |w| ==> w[i] != v[0]
    requires !StartsWith(k, w)
    ensures !StartsWith(k + v, w)
  {
    if |w| <= |k| {
      var i :| 0 <= i < |w| && k[i] != w[i];
      assert (k + v)[i] == k[i];
    } else if |w| <= |k + v| {
      assert (k + v)[|k|] == v[0];
    }
  }

  /** A bare key followed by `=` is read by the token rules as one word, then the `=`. */
  lemma KeyWord(k: string, u: string)
    requires IsKey(k)
    ensures ParseIdentifier(k + ("=" + u)) == Parsed(k, "=" + u)
    ensures ParseNamespaced(k + ("=" + u)) == Parsed([k], "=" + u)
  {
    var v := "=" + u;
    AssignSign(u);
    IdentifierToken(k, v);
    NamespacedOneWord(k + v, k, v);
  }

  /** A bare key is not a numeral, a boolean, a string or a table. */
  lemma KeyNotLiteral(k: string, u: string)
    requires IsKey(k)
    ensures ParseNum(k + ("=" + u)).NoParse? && ParseBool(k + ("=" + u)).NoParse?
    ensures |k + ("=" + u)| > 0 && IsIdentStart((k + ("=" + u))[0])
    ensures !StartsWith(k + ("=" + u), "#") && !StartsWith(k + ("=" + u), "(")
  {
    var v := "=" + u;
    var s := k + v;
    assert s[0] == k[0];
    NumFails(s);
    NotPrefixAcross(k, v, "true");
    NotPrefixAcross(k, v, "false");
  }

  /** A key that happens to start with `function` is not followed by `(`. */
  lemma KeyNotFunction(k: string, u: string)
    requires IsKey(k)
    ensures StartsWith(k + ("=" + u), "function") ==> !StartsWith(Whitespace((k + ("=" + u))[8..]), "(")
  {
    var v := "=" + u;
    var s := k + v;
    if |k| < 8 {
      assert s[|k|] == '=';
      assert "function"[|k|] != '=';
    } else {
      var w := s[8..];
      if |k| > 8 {
        assert w[0] == k[8];
      } else {
        assert w == v;
      }
      WhitespaceFixed(w);
    }
  }

  /** A bare key followed by `=` reads as a value only as far as the key: a variable reference. */
  lemma KeyAsObject(k: string, u: string)
    requires IsKey(k)
    ensures ParseObject(k + ("=" + u)) == Parsed(LuaObject.Expr(Var([k])), "=" + u)
  {
    KeyWord(k, u);
    KeyNotLiteral(k, u);
    ObjectIsVar(k + ("=" + u), [k], "=" + u);
  }

  /**
   * A bare key followed by `=` and a value reads as an expression only as far
   * as the key: a variable reference, leaving the `=`.
   */
  lemma KeyAsExpr(k: string, u: string)
    requires IsKey(k)
    requires |u| > 0 && u[0] != '='
    ensures ParseExpr(k + ("=" + u)) == Parsed(Literal(LuaObject.Expr(Var([k]))), "=" + u)
  {
    var s := k + ("=" + u);
    var v := "=" + u;
    var o := LuaObject.Expr(Var([k]));
    KeyWord(k, u);
    KeyNotLiteral(k, u);
    AssignSign(u);
    FuncallFailsWithoutParen(s, [k], v);
    KeyNotFunction(k, u);
    AnonFunctionFails(s);
    KeyAsObject(k, u);
    BinopKindFailsOnAssign(u);
    BinopFailsAfter(s, o, v);
    ExprIsValue(s, o, v);
  }

  // ---------------------------------------------------------------------------
  // The printed text, split where the grammar splits it

  lemma ArrayText(items: seq<DataLit>, t: string)
    ensures Print(DArray(items)) + t == "{" + (PrintItems(items) + ("}" + t))
  {
  }

  lemma MapText(fs: seq<(string, DataLit)>, t: string)
    ensures Print(DMap(fs)) + t == "{" + (PrintFields(fs) + ("}" + t))
  {
  }

  lemma ItemsText(xs: seq<DataLit>, t: string)
    requires xs != []
    ensures PrintItems(xs) + t == Print(xs[0]) + (PrintTail(xs[1..]) + t)
  {
  }

  lemma TailText(xs: seq<DataLit>, t: string)
    requires xs != []
    ensures PrintTail(xs) + t == "," + (Print(xs[0]) + (PrintTail(xs[1..]) + t))
  {
  }

  lemma FieldsText(fs: seq<(string, DataLit)>, t: string)
    requires fs != []
    ensures PrintFields(fs) + t == PrintField(fs[0]) + (PrintFieldTail(fs[1..]) + t)
  {
  }

  lemma FieldTailText(fs: seq<(string, DataLit)>, t: string)
    requires fs != []
    ensures PrintFieldTail(fs) + t == "," + (PrintField(fs[0]) + (PrintFieldTail(fs[1..]) + t))
  {
  }

  lemma FieldText(f: (string, DataLit), t: string)
    ensures PrintField(f) + t == f.0 + ("=" + (Print(f.1) + t))
  {
  }

  lemma ElemExprsCons(xs: seq<DataLit>)
    requires xs != []
    ensures ElemExprs(xs) == [Literal(AsParsed(xs[0]))] + ElemExprs(xs[1..])
  {
  }

  lemma FieldPairsCons(fs: seq<(string, DataLit)>)
    requires fs != []
    ensures FieldPairs(fs) == [FieldPair(fs[0])] + FieldPairs(fs[1..])
  {
  }

  /** A printed field starts with its key, so the skipper leaves it alone. */
  lemma FieldNoSkip(f: (string, DataLit), r: string)
    requires IsKey(f.0)
    ensures Whitespace(PrintField(f) + r) == PrintField(f) + r
  {
    var s := PrintField(f) + r;
    FieldText(f, r);
    assert s[0] == f.0[0];
    WhitespaceFixed(s);
  }

  /** Printed fields start with a key (or are empty), so the skipper leaves them alone. */
  lemma FieldsNoSkip(fs: seq<(string, DataLit)>, t: string)
    requires PrintableFields(fs) && StartsWith(t, "}")
    ensures Whitespace(PrintFields(fs) + t) == PrintFields(fs) + t
  {
    if fs == [] {
      assert PrintFields(fs) + t == t;
      WhitespaceFixed(t);
    } else {
      FieldsText(fs, t);
      FieldNoSkip(fs[0], PrintFieldTail(fs[1..]) + t);
    }
  }

  lemma ItemsNoSkip(xs: seq<DataLit>, t: string)
    requires xs != []
    ensures Whitespace(PrintItems(xs) + t) == PrintItems(xs) + t
  {
    ItemsText(xs, t);
    PrintStartsValue(xs[0], PrintTail(xs[1..]) + t);
    NoSkipBeforeValue(PrintItems(xs) + t);
  }

  // ---------------------------------------------------------------------------
  // Reading printed text back

  /**
   * The value rule reads a printed literal and stops where the literal ends,
   * skipping the blanks after it.
   */
  lemma {:induction false} ObjectRoundTrip(d: DataLit, t: string)
    requires Printable(d) && EndsValue(t)
    ensures ParseObject(Print(d) + t) == Parsed(AsParsed(d), Whitespace(t))
    decreases d, 1
  {
    var s := Print(d) + t;
    PrintStartsValue(d, t);
    match d
    case DInt(i) =>
      IntToken(i, t);
      ObjectIsNum(s);
    case DBool(b) =>
      NumFails(s);
      BoolToken(b, t);
      ObjectIsBool(s);
    case DStr(str) =>
      NumFails(s);
      StrToken(str, t);
      ObjectIsStr(s);
    case DArray(items) =>
      ArrayRoundTrip(items, t);
    case DMap(fs) =>
      MapRoundTrip(fs, t);
  }

  lemma {:induction false} ArrayRoundTrip(items: seq<DataLit>, t: string)
    requires |items| >= 1 && PrintableItems(items)
    ensures ParseObject(Print(DArray(items)) + t) == Parsed(AsParsed(DArray(items)), Whitespace(t))
    decreases DArray(items), 0
  {
    var inner := PrintItems(items) + ("}" + t);
    ArrayText(items, t);
    ItemsNoSkip(items, "}" + t);
    ItemsRoundTrip(items, "}" + t);
    ArrayObject(inner, ElemExprs(items), t);
  }

  lemma {:induction false} MapRoundTrip(fs: seq<(string, DataLit)>, t: string)
    requires PrintableFields(fs)
    ensures ParseObject(Print(DMap(fs)) + t) == Parsed(AsParsed(DMap(fs)), Whitespace(t))
    decreases DMap(fs), 0
  {
    CloseBrace(t);
    FieldsRoundTrip(fs, "}" + t);
    MapFromFields(fs, t);
  }

  /** Once the fields read back, so does the whole table. */
  lemma MapFromFields(fs: seq<(string, DataLit)>, t: string)
    requires PrintableFields(fs)
    requires ParseFieldList(PrintFields(fs) + ("}" + t)) == (FieldPairs(fs), "}" + t)
    ensures ParseObject(Print(DMap(fs)) + t) == Parsed(AsParsed(DMap(fs)), Whitespace(t))
  {
    MapInner(fs, t);
    MapText(fs, t);
  }

  lemma MapInner(fs: seq<(string, DataLit)>, t: string)
    requires PrintableFields(fs)
    requires ParseFieldList(PrintFields(fs) + ("}" + t)) == (FieldPairs(fs), "}" + t)
    ensures ParseObject("{" + (PrintFields(fs) + ("}" + t))) == Parsed(Map(FieldsToMap(FieldPairs(fs))), Whitespace(t))
  {
    CloseBrace(t);
    FieldsNoSkip(fs, "}" + t);
    MapTextNotArray(fs, t);
    MapObject(PrintFields(fs) + ("}" + t), FieldPairs(fs), t);
  }

  /**
   * The expression rule reads a printed literal as a literal expression and
   * stops where the literal ends, skipping the blank after it.
   */
  lemma {:induction false} ExprRoundTrip(d: DataLit, t: string)
    requires Printable(d) && EndsExpr(t)
    ensures ParseExpr(Print(d) + t) == Parsed(Literal(AsParsed(d)), Whitespace(t))
    decreases d, 2
  {
    var s := Print(d) + t;
    EndsExprSkip(t);
    ObjectRoundTrip(d, t);
    PrintedIsNoCall(d, t);
    AnonFunctionFails(s);
    FuncallFails(s);
    ValueIsExpr(s, AsParsed(d), Whitespace(t));
  }

  /** A non-empty printed element list, before `}`, reads back as its elements. */
  lemma {:induction false} ItemsRoundTrip(xs: seq<DataLit>, t: string)
    requires |xs| >= 1 && PrintableItems(xs) && StartsWith(t, "}")
    ensures ParseExprList1(PrintItems(xs) + t) == Parsed(ElemExprs(xs), t)
    decreases xs, 1
  {
    var rest := PrintTail(xs[1..]) + t;
    ItemsText(xs, t);
    TailStart(xs[1..], t);
    ExprRoundTrip(xs[0], rest);
    NoSkipBeforeFollow(rest);
    ExprTailRoundTrip(xs[1..], t);
    ExprList1Cons(Print(xs[0]) + rest, Literal(AsParsed(xs[0])), rest, ElemExprs(xs[1..]), t);
    ElemExprsCons(xs);
  }

  lemma {:induction false} ExprTailRoundTrip(xs: seq<DataLit>, t: string)
    requires PrintableItems(xs) && StartsWith(t, "}")
    ensures ExprTail(PrintTail(xs) + t) == (ElemExprs(xs), t)
    decreases xs, 0
  {
    if xs == [] {
      assert PrintTail(xs) + t == t;
      ExprTailStop(t);
    } else {
      var rest := PrintTail(xs[1..]) + t;
      var inner := Print(xs[0]) + rest;
      TailText(xs, t);
      PrintStartsValue(xs[0], rest);
      NoSkipBeforeValue(inner);
      TailStart(xs[1..], t);
      ExprRoundTrip(xs[0], rest);
      NoSkipBeforeFollow(rest);
      ExprTailRoundTrip(xs[1..], t);
      ExprTailCons(inner, Literal(AsParsed(xs[0])), rest, ElemExprs(xs[1..]), t);
      ElemExprsCons(xs);
    }
  }

  /** `key=value` reads back as the key and the literal expression. */
  lemma {:induction false} FieldRoundTrip(f: (string, DataLit), t: string)
    requires PrintableField(f) && Follows(t)
    ensures ParseField(PrintField(f) + t) == Parsed(FieldPair(f), t)
    decreases f, 0
  {
    var value := Print(f.1) + t;
    FieldText(f, t);
    KeyWord(f.0, value);
    PrintStartsValue(f.1, t);
    NoSkipBeforeValue(value);
    ExprRoundTrip(f.1, t);
    NoSkipBeforeFollow(t);
    FieldStep(f.0 + ("=" + value), f.0, value, Literal(AsParsed(f.1)), t);
  }

  lemma {:induction false} FieldsRoundTrip(fs: seq<(string, DataLit)>, t: string)
    requires PrintableFields(fs) && StartsWith(t, "}")
    ensures ParseFieldList(PrintFields(fs) + t) == (FieldPairs(fs), t)
    decreases fs, 1
  {
    if fs == [] {
      assert PrintFields(fs) + t == t;
      FieldListStop(t);
    } else {
      var rest := PrintFieldTail(fs[1..]) + t;
      FieldsText(fs, t);
      FieldTailStart(fs[1..], t);
      FieldRoundTrip(fs[0], rest);
      FieldTailRoundTrip(fs[1..], t);
      FieldListCons(PrintField(fs[0]) + rest, FieldPair(fs[0]), rest, FieldPairs(fs[1..]), t);
      FieldPairsCons(fs);
    }
  }

  lemma {:induction false} FieldTailRoundTrip(fs: seq<(string, DataLit)>, t: string)
    requires PrintableFields(fs) && StartsWith(t, "}")
    ensures FieldTail(PrintFieldTail(fs) + t) == (FieldPairs(fs), t)
    decreases fs, 0
  {
    if fs == [] {
      assert PrintFieldTail(fs) + t == t;
      FieldTailStop(t);
    } else {
      var rest := PrintFieldTail(fs[1..]) + t;
      var inner := PrintField(fs[0]) + rest;
      FieldTailText(fs, t);
      FieldNoSkip(fs[0], rest);
      FieldTailStart(fs[1..], t);
      FieldRoundTrip(fs[0], rest);
      FieldTailRoundTrip(fs[1..], t);
      FieldTailCons(inner, FieldPair(fs[0]), rest, FieldPairs(fs[1..]), t);
      FieldPairsCons(fs);
    }
  }

  /**
   * The array alternative, tried before the table alternative, fails on
   * printed table text: its first element would be the first key, which is
   * followed by `=` rather than by `,` or `}`.
   */
  lemma MapTextNotArray(fs: seq<(string, DataLit)>, t: string)
    requires PrintableFields(fs)
    ensures ParseArray("{" + (PrintFields(fs) + ("}" + t))).NoParse?
  {
    var inner := PrintFields(fs) + ("}" + t);
    if fs == [] {
      assert inner == "}" + t;
      WhitespaceFixed(inner);
      ExprList1FailsOnClose(inner);
      ArrayFailsWithoutElement(inner);
    } else {
      var after := PrintFieldTail(fs[1..]) + ("}" + t);
      var value := Print(fs[0].1) + after;
      FieldsText(fs, "}" + t);
      FieldText(fs[0], after);
      PrintStartsValue(fs[0].1, after);
      KeyFirstNotArray(inner, fs[0].0, value);
    }
  }

  /** Text that starts with a key and `=` is not the inside of an array. */
  lemma KeyFirstNotArray(inner: string, k: string, value: string)
    requires IsKey(k) && |value| > 0 && value[0] != '='
    requires inner == k + ("=" + value)
    ensures ParseArray("{" + inner).NoParse?
  {
    var e := Literal(LuaObject.Expr(Var([k])));
    assert inner[0] == k[0];
    WhitespaceFixed(inner);
    KeyAsExpr(k, value);
    ExprTailStop("=" + value);
    ExprList1Cons(inner, e, "=" + value, [], "=" + value);
    ArrayFailsOnAssign(inner, [e] + [], value);
  }

  // ---------------------------------------------------------------------------
  // From the parsed value to the literal

  /** Simplifying the parsed value removes exactly the wrappers the grammar added. */
  lemma {:induction false} SimplifyAsParsed(d: DataLit)
    ensures Simplify(AsParsed(d)) == ToObject(d)
  {
    match d
    case DArray(items) =>
      forall i | 0 <= i < |items| ensures Simplify(AsParsed(items[i])) == ToObject(items[i]) {
        SimplifyAsParsed(items[i]);
      }
      SimplifyArray(items);
    case DMap(fs) =>
      forall i | 0 <= i < |fs| ensures Simplify(AsParsed(fs[i].1)) == ToObject(fs[i].1) {
        SimplifyAsParsed(fs[i].1);
      }
      SimplifyMap(fs);
    case _ =>
  }

  /** The array case: element by element, simplifying the wrapped element gives its value. */
  lemma SimplifyArray(items: seq<DataLit>)
    requires forall i :: 0 <= i < |items| ==> Simplify(AsParsed(items[i])) == ToObject(items[i])
    ensures Simplify(AsParsed(DArray(items))) == ToObject(DArray(items))
  {
    var a := WrapAll(ElemExprs(items));
    assert forall i :: 0 <= i < |items| ==> Simplify(a[i]) == ToObjects(items)[i];
    assert Simplify(AsParsed(DArray(items))).items == ToObjects(items);
  }

  /** The table case: building the table and simplifying commute. */
  lemma SimplifyMap(fs: seq<(string, DataLit)>)
    requires forall i :: 0 <= i < |fs| ==> Simplify(AsParsed(fs[i].1)) == ToObject(fs[i].1)
    ensures Simplify(AsParsed(DMap(fs))) == ToObject(DMap(fs))
  {
    var a := FieldPairs(fs);
    var b := ToFields(fs);
    forall i | 0 <= i < |fs| ensures a[i].0 == b[i].0 && Simplify(a[i].1) == b[i].1 {
      assert a[i] == FieldPair(fs[i]) && b[i] == ToField(fs[i]);
    }
    FieldsToMapSimplify(a, b);
    SimplifyTable(FieldsToMap(a), FieldsToMap(b));
  }

  /** A table whose values simplify to those of a second table with the same keys simplifies to it. */
  lemma SimplifyTable(ma: map<string, LuaObject>, mb: map<string, LuaObject>)
    requires ma.Keys == mb.Keys
    requires forall k :: k in ma ==> Simplify(ma[k]) == mb[k]
    ensures Simplify(Map(ma)) == Map(mb)
  {
    var m := Simplify(Map(ma)).fields;
    assert m == mb;
  }

  /** Building the table and simplifying its values commute. */
  lemma {:induction false} FieldsToMapSimplify(a: seq<(string, LuaObject)>, b: seq<(string, LuaObject)>)
    requires |a| == |b|
    requires forall i :: 0 <= i < |a| ==> a[i].0 == b[i].0 && Simplify(a[i].1) == b[i].1
    ensures FieldsToMap(a).Keys == FieldsToMap(b).Keys
    ensures forall k :: k in FieldsToMap(a) ==> Simplify(FieldsToMap(a)[k]) == FieldsToMap(b)[k]
  {
    if a != [] {
      var n := |a| - 1;
      PairsPrefix(a, b, n);
      FieldsToMapSimplify(a[..n], b[..n]);
      MapSnoc(a);
      MapSnoc(b);
      UpdateSimplify(FieldsToMap(a[..n]), FieldsToMap(b[..n]), a[n].0, a[n].1, b[n].1, FieldsToMap(a), FieldsToMap(b));
    }
  }

  lemma PairsPrefix(a: seq<(string, LuaObject)>, b: seq<(string, LuaObject)>, n: nat)
    requires |a| == |b| && n <= |a|
    requires forall i :: 0 <= i < |a| ==> a[i].0 == b[i].0 && Simplify(a[i].1) == b[i].1
    ensures forall i :: 0 <= i < n ==> a[..n][i].0 == b[..n][i].0 && Simplify(a[..n][i].1) == b[..n][i].1
  {
  }

  /** The table of a field list is the table of all but the last field, with the last one bound. */
  lemma MapSnoc(fs: seq<(string, LuaObject)>)
    requires fs != []
    ensures FieldsToMap(fs) == FieldsToMap(fs[..|fs| - 1])[fs[|fs| - 1].0 := fs[|fs| - 1].1]
  {
  }

  /** Binding a key on both sides keeps one table the simplification of the other. */
  lemma UpdateSimplify(ma: map<string, LuaObject>, mb: map<string, LuaObject>, k: string, va: LuaObject, vb: LuaObject,
                       ma': map<string, LuaObject>, mb': map<string, LuaObject>)
    requires ma.Keys == mb.Keys && Simplify(va) == vb
    requires forall j :: j in ma ==> Simplify(ma[j]) == mb[j]
    requires ma' == ma[k := va] && mb' == mb[k := vb]
    ensures ma'.Keys == mb'.Keys
    ensures forall j :: j in ma' ==> Simplify(ma'[j]) == mb'[j]
  {
  }

  /**
   * The round trip: a printable literal, printed and read by the value rule,
   * is consumed whole and simplifies to the value it denotes.
   */
  lemma PrintThenParse(d: DataLit)
    requires Printable(d)
    ensures ParseObject(Print(d)).Parsed? && ParseObject(Print(d)).rest == []
    ensures Simplify(ParseObject(Print(d)).value) == ToObject(d)
  {
    ObjectRoundTrip(d, []);
    WhitespaceFixed([]);
    assert Print(d) + [] == Print(d);
    SimplifyAsParsed(d);
  }
}
