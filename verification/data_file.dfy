/**
 * A whole data file as the game writes it: `data:extend` around a literal,
 * read by the top-level loop.
 */
module DataFile {
  import opened LuaAst
  import opened Lexer
  import opened TopLevel
  import opened Printer

  /**
   * A data file holding one `data:extend` call around a printed literal is
   * read whole, and the context gains exactly that value.
   */
  lemma DataExtendOfPrinted(ctx: LuaContext, d: DataLit)
    requires Printable(d)
    ensures var s := "data:extend(" + (Print(d) + ")");
      && ParseTopLevel(ctx, s) == (ctx.(dataExtends := ctx.dataExtends + [AsParsed(d)]), Parsed((), []))
      && ParseAll(ctx, s) == (ctx.(dataExtends := ctx.dataExtends + [AsParsed(d)]), Parsed((), []))
  {
    var v := Print(d) + ")";
    var s := "data:extend(" + v;
    ObjectRoundTrip(d, ")");
    WhitespaceFixed(")");
    PrintStartsValue(d, ")");
    NoSkipBeforeValue(v);
    assert StartsWith(s, "data:extend(") && s[12..] == v;
    DataExtendStep(s, v, AsParsed(d));
  }
}
