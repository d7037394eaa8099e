/**
 * Properties of the grammar that relate several rules: the wrapping of
 * composite elements as `Expr`, the shape of subscript targets, and how the
 * array and map rules share the `{` prefix.
 */
module GrammarFacts {
  import opened LuaAst
  import opened Lexer
  import opened Grammar
  import opened GrammarSteps

  /** Wherever a plain value parses, an expression parses too (its last alternative is a plain value). */
  lemma ExprCoversObject(s: string)
    requires ParseObject(s).Parsed?
    ensures ParseExpr(s).Parsed?
  {
  }

  /**
   * A field's value is always wrapped as `Expr`: the plain-value fallback of
   * the field rule is reached only when the expression rule failed, and then
   * the plain-value rule fails too.
   */
  lemma FieldValueIsExpr(s: string)
    requires ParseField(s).Parsed?
    ensures ParseField(s).value.1.Expr?
  {
    var s1 := ParseIdentifier(s).rest;
    var s3 := Whitespace(Whitespace(s1)[1..]);
    if ParseExpr(s3).NoParse? {
      if ParseObject(s3).Parsed? {
        ExprCoversObject(s3);
      }
    }
  }

  /** Every field of `fs` holds an `Expr` value. */
  predicate AllExprValues(fs: seq<(string, LuaObject)>) {
    forall i :: 0 <= i < |fs| ==> fs[i].1.Expr?
  }

  lemma ConsExprValues(f: (string, LuaObject), fs: seq<(string, LuaObject)>)
    requires f.1.Expr? && AllExprValues(fs)
    ensures AllExprValues([f] + fs)
  {
    forall i | 0 <= i < |[f] + fs| ensures ([f] + fs)[i].1.Expr? {
      if i > 0 {
        assert ([f] + fs)[i] == fs[i - 1];
      }
    }
  }

  /** Every field of a field list holds an `Expr` value. */
  lemma {:induction false} FieldTailValuesAreExpr(s: string)
    ensures AllExprValues(FieldTail(s).0)
    decreases |s|
  {
    match Commaspace(s)
    case NoParse =>
      FieldTailNoComma(s);
    case Parsed(_, s1) =>
      match ParseField(s1)
      case NoParse =>
        FieldTailNoField(s, s1);
      case Parsed(f, s2) =>
        FieldValueIsExpr(s1);
        FieldTailValuesAreExpr(s2);
        var (fs, t) := FieldTail(s2);
        FieldTailAfterComma(s, s1, f, s2, fs, t);
        ConsExprValues(f, fs);
  }

  lemma FieldListValuesAreExpr(s: string)
    ensures AllExprValues(ParseFieldList(s).0)
  {
    match ParseField(s)
    case NoParse =>
    case Parsed(f, s1) =>
      FieldValueIsExpr(s);
      FieldTailValuesAreExpr(s1);
      var (fs, t) := FieldTail(s1);
      FieldListCons(s, f, s1, fs, t);
      ConsExprValues(f, fs);
  }

  /** A value in a map produced by `FieldsToMap` is the value of some field. */
  lemma FieldsToMapValues(fs: seq<(string, LuaObject)>, k: string)
    requires k in FieldsToMap(fs)
    ensures exists i :: 0 <= i < |fs| && fs[i].0 == k && FieldsToMap(fs)[k] == fs[i].1
  {
    var i :| 0 <= i < |fs| && fs[i].0 == k;
    while exists j :: i < j < |fs| && fs[j].0 == k
      invariant 0 <= i < |fs| && fs[i].0 == k
      decreases |fs| - i
    {
      var j :| i < j < |fs| && fs[j].0 == k;
      i := j;
    }
  }

  /** A parsed array comes from the array rule and a parsed table from the table rule. */
  lemma ObjectComposite(s: string)
    requires ParseObject(s).Parsed?
    ensures ParseObject(s).value.Array? ==> ParseObject(s) == ParseArray(s)
    ensures ParseObject(s).value.Map? ==> ParseObject(s) == ParseMap(s)
  {
    if ParseNum(s).Parsed? {
      ObjectIsNum(s);
    } else if ParseBool(s).Parsed? {
      ObjectIsBool(s);
    } else if ParseStr(s).Parsed? {
      assert ParseObject(s) == ParseStr(s);
    } else if ParseArray(s).NoParse? && ParseMap(s).NoParse? {
      assert ParseObject(s).value.Expr?;
    }
  }

  /**
   * `{}` is an empty table: the array rule needs at least one element and
   * fails, and the table rule, tried next, accepts zero fields.
   */
  lemma EmptyBracesIsMap()
    ensures ParseArray("{}").NoParse?
    ensures ParseObject("{}") == Parsed(Map(map[]), [])
  {
    var inner: string := "}";
    assert "{}" == "{" + inner && inner == "}" + [];
    CloseBrace([]);
    WhitespaceFixed([]);
    ExprList1FailsOnClose(inner);
    ArrayFailsWithoutElement(inner);
    FieldListStop(inner);
    MapObject(inner, [], []);
  }

  /** The table rule's value is the map of the fields it read after `{`. */
  lemma MapFields(s: string)
    requires ParseMap(s).Parsed?
    ensures |s| > 0 && ParseMap(s).value == Map(FieldsToMap(ParseFieldList(Whitespace(s[1..])).0))
  {
  }

  /** Parsed composites store every element and every field value as `Expr`. */
  lemma CompositeElementsAreExpr(s: string)
    requires ParseObject(s).Parsed?
    ensures ParseObject(s).value.Array? ==>
      forall i :: 0 <= i < |ParseObject(s).value.items| ==> ParseObject(s).value.items[i].Expr?
    ensures ParseObject(s).value.Map? ==>
      forall k :: k in ParseObject(s).value.fields ==> ParseObject(s).value.fields[k].Expr?
  {
    ObjectComposite(s);
    if ParseObject(s).value.Map? {
      MapFields(s);
      var fs := ParseFieldList(Whitespace(s[1..])).0;
      FieldListValuesAreExpr(Whitespace(s[1..]));
      forall k | k in FieldsToMap(fs) ensures FieldsToMap(fs)[k].Expr? {
        FieldsToMapValues(fs, k);
      }
    }
  }

  /**
   * The base of a subscript target is always a dotted name: it is parsed from
   * the text before the first `[`, where no further subscript can be found.
   */
  lemma SubscriptBaseIsDotted(s: string)
    requires ParseSubscript(s).Parsed?
    ensures ParseSubscript(s).value.0.Dotted?
  {
    var idx := FindChar(s, '[');
    var prefix := s[..idx];
    assert idx < |s| && ParseLValue(prefix).Parsed?;
    FindCharBefore(s, '[');
    LValueWithoutBracket(prefix);
  }

  /** Text without `[` is never a subscript target, so a target read from it is a dotted name. */
  lemma LValueWithoutBracket(p: string)
    requires forall i :: 0 <= i < |p| ==> p[i] != '['
    ensures ParseLValue(p).Parsed? ==> ParseLValue(p).value.Dotted?
  {
    FindCharAbsent(p, '[');
    assert ParseSubscript(p).NoParse?;
  }

  /** With no `c` in `s`, the search runs to the end. */
  lemma {:induction false} FindCharAbsent(s: string, c: char)
    requires forall i :: 0 <= i < |s| ==> s[i] != c
    ensures FindChar(s, c) == |s|
  {
    if s != [] {
      FindCharAbsent(s[1..], c);
    }
  }

  /** Hence a target never nests subscripts: `a[i][j]` is not one target. */
  lemma LValueNeverNestsSubscripts(s: string)
    requires ParseLValue(s).Parsed? && ParseLValue(s).value.Subscript?
    ensures ParseLValue(s).value.base.Dotted?
  {
    SubscriptBaseIsDotted(s);
  }
}
