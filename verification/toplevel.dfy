/**
 * The top level of a data file: `data:extend(...)` calls, `local` bindings,
 * named function definitions and other statements, read one after another
 * into a context that collects the extended data, the locals and the
 * functions.
 */
module TopLevel {
  import opened LuaAst
  import opened Lexer
  import opened Grammar

  datatype LuaContext = LuaContext(
    locals: map<string, LuaExpr>,
    functions: map<string, LuaFunction>,
    dataExtends: seq<LuaObject>)

  const EmptyContext: LuaContext := LuaContext(map[], map[], [])

  /** `data:extend(` value `)`, with whitespace allowed inside and skipped after. */
  function ParseDataExtend(s: string): (r: ParseResult<LuaObject>)
    ensures Advances(s, r)
    ensures r.Parsed? ==> StartsWith(s, "data:extend(")
    ensures r.Parsed? ==>
      && ParseObject(Whitespace(s[12..])).Parsed?
      && r.value == ParseObject(Whitespace(s[12..])).value
  {
    if !StartsWith(s, "data:extend(") then NoParse else
    match ParseObject(Whitespace(s[12..]))
    case NoParse => NoParse
    case Parsed(o, s1) =>
      var s2 := Whitespace(s1);
      if !StartsWith(s2, ")") then NoParse else
      Parsed(o, Whitespace(s2[1..]))
  }

  /** `m2` is `m1` with one key bound, new or rebound. */
  ghost predicate BindsOneKey<V>(m1: map<string, V>, m2: map<string, V>) {
    exists k :: k in m2 && m2 == m1[k := m2[k]]
  }

  /**
   * What one top-level item may do to the context: append one value to the
   * extended data, bind one local, bind one function, or nothing.
   */
  ghost predicate OneStep(c1: LuaContext, c2: LuaContext) {
    || (c2.locals == c1.locals && c2.functions == c1.functions
        && (c2.dataExtends == c1.dataExtends
            || (|c2.dataExtends| == |c1.dataExtends| + 1 && c2.dataExtends[..|c1.dataExtends|] == c1.dataExtends)))
    || (c2.functions == c1.functions && c2.dataExtends == c1.dataExtends && BindsOneKey(c1.locals, c2.locals))
    || (c2.locals == c1.locals && c2.dataExtends == c1.dataExtends && BindsOneKey(c1.functions, c2.functions))
  }

  /**
   * One top-level item, alternatives in order: `data:extend`, `local`,
   * named function, any other statement (which is parsed and discarded).
   * A failed item leaves the context as it was.
   */
  function ParseTopLevel(ctx: LuaContext, s: string): (r: (LuaContext, ParseResult<()>))
    ensures Advances(s, r.1)
    ensures r.1.NoParse? ==> r.0 == ctx
    ensures r.1.Parsed? ==> OneStep(ctx, r.0)
    ensures ParseDataExtend(s).Parsed? ==>
      r == (ctx.(dataExtends := ctx.dataExtends + [ParseDataExtend(s).value]), Parsed((), ParseDataExtend(s).rest))
  {
    match ParseDataExtend(s)
    case Parsed(o, rest) =>
      var c := ctx.(dataExtends := ctx.dataExtends + [o]);
      assert c.dataExtends[..|ctx.dataExtends|] == ctx.dataExtends;
      (c, Parsed((), rest))
    case NoParse =>
      match ParseLocal(s)
      case Parsed((name, e), rest) =>
        var c := ctx.(locals := ctx.locals[name := e]);
        assert c.locals == ctx.locals[name := c.locals[name]];
        (c, Parsed((), rest))
      case NoParse =>
        match ParseNamedFunction(s)
        case Parsed((name, f), rest) =>
          var c := ctx.(functions := ctx.functions[name := f]);
          assert c.functions == ctx.functions[name := c.functions[name]];
          (c, Parsed((), rest))
        case NoParse =>
          match ParseStmt(s)
          case Parsed(_, rest) => (ctx, Parsed((), rest))
          case NoParse => (ctx, NoParse)
  }

  /** A value read whole, then `)` at the end of the text: the call consumes everything. */
  lemma DataExtendStep(s: string, v: string, o: LuaObject)
    requires StartsWith(s, "data:extend(") && s[12..] == v
    requires Whitespace(v) == v && ParseObject(v) == Parsed(o, ")")
    ensures ParseDataExtend(s) == Parsed(o, [])
  {
    var close: string := ")";
    WhitespaceFixed(close);
    WhitespaceFixed([]);
    assert StartsWith(close, ")") && close[1..] == [];
    assert Whitespace(s[12..]) == v;
  }

  /** `c2` extends `c1`: the extended data grows at the end and no binding disappears. */
  predicate Extends(c1: LuaContext, c2: LuaContext) {
    && |c1.dataExtends| <= |c2.dataExtends|
    && c2.dataExtends[..|c1.dataExtends|] == c1.dataExtends
    && c1.locals.Keys <= c2.locals.Keys
    && c1.functions.Keys <= c2.functions.Keys
  }

  lemma OneStepExtends(c1: LuaContext, c2: LuaContext)
    requires OneStep(c1, c2)
    ensures Extends(c1, c2)
  {
  }

  lemma {:induction false} ExtendsTransitive(c1: LuaContext, c2: LuaContext, c3: LuaContext)
    requires Extends(c1, c2) && Extends(c2, c3)
    ensures Extends(c1, c3)
  {
    assert c3.dataExtends[..|c1.dataExtends|] == c3.dataExtends[..|c2.dataExtends|][..|c1.dataExtends|];
  }

  /**
   * Items one after another until the input is used up; the first item that
   * fails makes the whole read fail, keeping what the items before it added.
   * An empty input fails, since at least one item is read.
   */
  function ParseAll(ctx: LuaContext, s: string): (r: (LuaContext, ParseResult<()>))
    ensures r.1.Parsed? ==> r.1.rest == []
    ensures s == [] ==> r == (ctx, NoParse)
    ensures Extends(ctx, r.0)
    decreases |s|
  {
    var (c1, step) := ParseTopLevel(ctx, s);
    match step
    case NoParse => (c1, NoParse)
    case Parsed(_, rest) =>
      OneStepExtends(ctx, c1);
      if rest == [] then (c1, Parsed((), rest))
      else
        var r := ParseAll(c1, rest);
        ExtendsTransitive(ctx, c1, r.0);
        r
  }

  /** The reading loop: read an item, stop with an error if it fails, finish when nothing is left. */
  method ReadAll(ctx: LuaContext, s: string) returns (c: LuaContext, ok: bool)
    ensures (c, ok) == (ParseAll(ctx, s).0, ParseAll(ctx, s).1.Parsed?)
  {
    c := ctx;
    var input := s;
    while true
      invariant ParseAll(c, input) == ParseAll(ctx, s)
      decreases |input|
    {
      var (c1, step) := ParseTopLevel(c, input);
      if step.NoParse? {
        return c1, false;
      }
      c, input := c1, step.rest;
      if input == [] {
        return c, true;
      }
    }
  }
}
