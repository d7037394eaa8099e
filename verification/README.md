# Lua data-file reader and recipe decoder, in Dafny

This project models the two pure pieces of a tool that reads Factorio-style
Lua data files:

- **The Lua-subset reader** (`src/lua_parser.rs`). It has these parts:
  - a dynamic value type `LuaObject` and the `simplify` rewrite;
  - type-directed conversions from `LuaObject` to booleans, strings, 64-bit
    integers, floats, expressions, vectors, sets, pairs and string-keyed maps;
  - a backtracking recursive-descent grammar for the Lua subset the data
    files use. The subset covers literals, tables, dotted names, calls, unary
    `#`, binary operators, assignments, `local`, `return`,
    `if`/`then`/`else`, and named and anonymous functions;
  - the top-level loop, which collects `data:extend(...)` values, locals and
    functions into a context.
- **The recipe decoders** (`src/recipe.rs`). These cover:
  - the remove-and-convert table access `field`;
  - ingredients in their pair and table forms;
  - recipes with an optional `normal` sub-table, the `result`/`result_count`
    fallback and defaults;
  - the index from product name to the recipes that make it.

Every grammar rule is a total function from a string to
`NoParse | Parsed(value, rest)`. The rules are mutually recursive. They
terminate on `|input|` plus a fixed rank per rule, and each one consumes
input when it succeeds (`Advances`). Conversions return
`Result<T, DecodeError>`. `DecodeError` has one constructor per kind of
message the source builds.

Modules, one per file:

| Module | File | Contents |
|---|---|---|
| `Wrappers` | `wrappers.dfy` | `Result` |
| `LuaAst` | `lua_ast.dfy` | the trees and `Simplify` |
| `Lexer` | `lexer.dfy` | the skipper and the tokens |
| `Grammar` | `grammar.dfy` | the grammar |
| `GrammarSteps` | `grammar_steps.dfy` | single-step facts about the grammar |
| `GrammarFacts` | `grammar_facts.dfy` | shape properties of what the grammar returns |
| `Printer` | `printer.dfy` | a printer for data literals and the proof that the grammar reads its text back |
| `CodeText` | `code_text.dfy` | code fragments (names, calls, operators, functions, statements), their canonical text and the trees they stand for |
| `CodeSteps` | `code_steps.dfy` | single grammar steps on code fragments |
| `CodeRoundTrip` | `code_round_trip.dfy` | the proof that the grammar reads code fragments back as their trees |
| `TopLevel` | `toplevel.dfy` | the top-level loop |
| `DataFile` | `data_file.dfy` | a whole `data:extend` file |
| `Decode` | `decode.dfy` | the conversions |
| `Recipes` | `recipe.dfy` | ingredient and recipe decoding |
| `RecipeMaps` | `recipe_map.dfy` | the product index |

The `LValue::Subscript(Box<LValue>, Box<LuaExpr>)` type (src/lua_parser.rs:638-641)
could hold a subscript of a subscript. `parse_subscript`, however, parses the
text before the first `[` as its base, and that text never contains a `[`. So the base of a subscript is always a
dotted name. The model follows the code, and `GrammarFacts.SubscriptBaseIsDotted`
and `GrammarFacts.LValueNeverNestsSubscripts` state the consequence.
In the model, the part of `parse_subscript` that reads `[`, the index and `]`
after the base is the separate function `Grammar.IndexAfter`.

The parenthesis branch of `parse_expr` (`src/lua_parser.rs:506`) does not
skip the blanks after its `)`, unlike every other rule. So an expression
whose text ends with a parenthesised expression leaves its trailing blank in
place. `CodeSteps.After` says what an expression leaves. Because of this,
`if (x) then ... end` and `a = (x)` followed by another statement do not read:
the blank stops `then` and the next statement from matching.

Each rule's contract states what the rule guarantees about any input. What
the grammar builds from well-formed text is stated by round trips: data
literals are printed by `Printer`, code by `CodeText`, and the lemmas of
`Printer` and `CodeRoundTrip` show that each printed text reads back as its
tree.

## Model

| member | source | states |
|---|---|---|
| LuaAst.Simplify | src/lua_parser.rs:32-44 | `Expr(Literal(x))` becomes the simplified `x`. Tables keep their keys and arrays their length, with every member simplified. Values already free of literal wrappers, including other `Expr` nodes and scalars, come back unchanged. The result has no literal wrapper left. |
| LuaAst.SimplifyIdempotent | src/lua_parser.rs:32-44 | Simplifying twice is the same as simplifying once. |
| Lexer.Whitespace | src/lua_parser.rs:182-193 | The skipper never fails. It never lengthens its input, and what it leaves starts with neither a blank character nor a `--` comment. |
| Lexer.SpaceSkipped | src/lua_parser.rs:186 | A leading blank character is skipped: skipping from it gives the same result as skipping from the text after it. |
| Lexer.CommentSkipped | src/lua_parser.rs:187 | `--` followed by at least one character, up to a line break or the end, is skipped whole. |
| Lexer.WhitespaceSuffix | src/lua_parser.rs:182-193 | What the skipper leaves is a suffix of its input. |
| Lexer.WhitespaceIdempotent | src/lua_parser.rs:182-193 | Skipping again after a skip consumes nothing. |
| Lexer.SkipWhitespace | src/lua_parser.rs:185-192 | The loop that strips blank space, then one comment, and stops once a round consumed nothing, computes the skipper's result. |
| Lexer.EmptyCommentNotSkipped | src/lua_parser.rs:187 | `--` followed directly by a line break is not a comment: a comment needs at least one character other than a line break. |
| Lexer.Commaspace | src/lua_parser.rs:195-201 | The separator matches exactly when the input starts with `,`. |
| Lexer.ParseBool | src/lua_parser.rs:203-212 | Matches exactly the inputs that start with `true` or `false`, yielding the corresponding boolean. There is no word-boundary check. |
| Lexer.BoolToken | src/lua_parser.rs:203-212 | A boolean's text followed by anything reads back as that boolean, with the following blanks skipped. |
| Lexer.ParseStr | src/lua_parser.rs:273-282 | A match is a quoted body free of `"` and `\`. It consumes both quotes and the blanks after them. |
| Lexer.StrToken | src/lua_parser.rs:284-291 | A quoted body free of `"` and `\` reads back as exactly that string, with the rest after blanks; `"recipe"` alone leaves nothing. |
| Lexer.ParseNum | src/lua_parser.rs:305-317 | Reads the longest run of `-`, `.` and digits. It succeeds exactly when that run is non-empty and is a signed 64-bit decimal or a float numeral. A 64-bit decimal gives `Int` with the run's value. Any other float numeral gives `Float` holding the run's text. The blanks after the run are skipped. |
| Lexer.IntToken | src/lua_parser.rs:305-317 | The decimal text of any signed 64-bit integer reads back as that `Int`. |
| Lexer.ParseIdentifier | src/lua_parser.rs:319-335 | A match is a maximal word that starts with a letter or `_`. The blanks after it are skipped. |
| Lexer.IdentifierToken | src/lua_parser.rs:319-335 | A maximal word fails exactly when it is one of the seven reserved words, and otherwise reads back as itself. |
| Lexer.ParseNamespaced | src/lua_parser.rs:214-222 | A dotted name succeeds exactly when an identifier starts the input. Every part of the name is an identifier. |
| Lexer.NamespacedRoundTrip | src/lua_parser.rs:214-222 | Identifiers joined by `.`, followed by text that continues neither a word nor a dotted name, read back as exactly those identifiers, with the blanks after them skipped. |
| Lexer.IdentListRoundTrip | src/lua_parser.rs:602-603 | Parameter names joined by `,` and followed by `)` read back as those names, in order, stopping at the `)`. |
| Grammar.ParseArray | src/lua_parser.rs:379-393 | An array has at least one element, and every element is wrapped as an expression. |
| Grammar.FieldsToMap | src/lua_parser.rs:366-377 | The table's keys are exactly the field names. Each key holds the value of its last field. |
| Grammar.ParseFuncall | src/lua_parser.rs:425-440 | A call names a non-empty dotted callee. |
| Grammar.ParseBinop | src/lua_parser.rs:480-495 | A binary operation's left operand is a literal value. |
| Grammar.ParseFunctionRest | src/lua_parser.rs:586-619 | A function's parameters are identifiers and its body has at least one statement. |
| Grammar.ParseNamedFunction | src/lua_parser.rs:553-560 | A named function's name is an identifier. |
| Grammar.ParseLocal | src/lua_parser.rs:407-423 | A `local` binds an identifier. |
| Grammar.ParseIfThen | src/lua_parser.rs:511-533 | A conditional has a non-empty `then` body. |
| GrammarFacts.ExprCoversObject | src/lua_parser.rs:497-509 | Whatever reads as a value also reads as an expression. |
| GrammarFacts.FieldValueIsExpr | src/lua_parser.rs:337-350 | A table field's value is always wrapped as an expression. |
| GrammarFacts.ObjectComposite | src/lua_parser.rs:255-271 | An array value comes from the array rule and a table value from the table rule. |
| GrammarFacts.EmptyBracesIsMap | src/lua_parser.rs:366-393 | `{}` is not an array, since an array needs an element. It reads as the empty table. |
| GrammarFacts.CompositeElementsAreExpr | src/lua_parser.rs:345-348 | Every array element and every table value a value rule returns is wrapped as an expression. |
| GrammarFacts.FieldsToMapValues | src/lua_parser.rs:366-377 | Every entry of a table comes from one of its fields. |
| GrammarFacts.SubscriptBaseIsDotted | src/lua_parser.rs:224-242 | The base of a subscript target is always a dotted name. |
| GrammarFacts.LValueNeverNestsSubscripts | src/lua_parser.rs:244-253 | An assignment target never has a subscript inside a subscript. |
| Printer.ObjectRoundTrip | src/lua_parser.rs:255-271 | A printed data literal, followed by anything that does not continue a numeral, reads back as the literal, with the blanks after it skipped. Composite members are wrapped as expressions. |
| Printer.ExprRoundTrip | src/lua_parser.rs:497-509 | A printed literal, followed by a list closer, a `]` or one blank and a word, reads back as an expression holding the literal value. |
| Printer.ItemsRoundTrip | src/lua_parser.rs:379-393 | Printed array elements read back as the element expressions, in order. |
| Printer.FieldRoundTrip | src/lua_parser.rs:337-350 | A printed `key=value` reads back as the key and the wrapped value. |
| Printer.FieldsRoundTrip | src/lua_parser.rs:366-377 | A printed field list reads back as its fields, in order. |
| Printer.SimplifyAsParsed | src/lua_parser.rs:32-44 | Simplifying what the grammar builds for a literal gives the literal's plain value. |
| Printer.PrintThenParse | src/lua_parser.rs:255-271 | The whole printed text of a literal is consumed, and simplifying the result gives back the literal's value. |
| CodeRoundTrip.ExprRoundTrip | src/lua_parser.rs:497-509 | Every readable expression reads back as its tree. That covers literals, names, calls, `#`, binary operations, parenthesised expressions and anonymous functions. The blanks after it are skipped, except when its text ends with a parenthesised expression. |
| CodeRoundTrip.CallExprRoundTrip | src/lua_parser.rs:501-507 | A call's text read as an expression gives the call, because the call branch is tried before the value branch. |
| CodeRoundTrip.FuncallRoundTrip | src/lua_parser.rs:425-440 | `a.b(x,y)` followed by anything reads back as `Funcall` of the dotted callee and the argument trees in order. The blanks after `)` are skipped. |
| CodeRoundTrip.ArgsRoundTrip | src/lua_parser.rs:434-435 | Arguments joined by `,` and followed by `)` read back as their trees in order, stopping at the `)`. |
| CodeRoundTrip.BinopRoundTrip | src/lua_parser.rs:480-495 | `v op e`, with a value `v` on the left, reads back as `Binop(op, Literal v, e)`. This holds for the operator rule and for the expression rule, which tries the operator rule before the plain value. |
| CodeRoundTrip.ChainNestsRight | src/lua_parser.rs:480-495 | `a op1 b op2 c` reads as `a op1 (b op2 c)`. The right operand is a whole expression, so a chain nests to the right whatever its operators, with no precedence. |
| CodeRoundTrip.UnopRoundTrip | src/lua_parser.rs:457-464 | `#e` reads back as `Unop(Octothorpe, e)`, through the `#` rule and as an expression. |
| CodeRoundTrip.ParenRoundTrip | src/lua_parser.rs:506 | `(e)` reads back as `e` itself, with no node for the parentheses. Nothing after the `)` is skipped. |
| CodeRoundTrip.FunctionRestRoundTrip | src/lua_parser.rs:586-619 | A parameter list, a non-empty body and `end` read back as the function with those parameters and statement trees. The blanks after `end` are skipped. |
| CodeRoundTrip.AnonFunctionRoundTrip | src/lua_parser.rs:562-569 | `function(...) ... end` reads back as that function, and as an expression it reads as `Fundef` of it. |
| CodeRoundTrip.NamedFunctionRoundTrip | src/lua_parser.rs:553-560 | `function name(...) ... end` reads back as the name paired with the function. |
| CodeRoundTrip.StmtsRoundTrip | src/lua_parser.rs:521 | A non-empty block, its statements separated by single blanks and followed by ` end` or ` else`, reads back as its statements in order. It stops at the keyword. |
| CodeRoundTrip.StmtRoundTrip | src/lua_parser.rs:535-551 | Every readable statement reads back as its tree, with the blanks after it skipped. A `local` becomes an assignment to a one-part dotted name. |
| CodeRoundTrip.ReturnRoundTrip | src/lua_parser.rs:442-449 | `return e` reads back as `Return(e)`, through the rule and as a statement. The blanks after it are skipped, even after a parenthesised `e`. |
| CodeRoundTrip.AssignRoundTrip | src/lua_parser.rs:352-364 | `a.b = e` reads back as `Assign(Dotted [a, b], e)`, through the rule and as a statement. The rule has no skip of its own, so it leaves what `e` leaves. |
| CodeRoundTrip.IndexAssignRoundTrip | src/lua_parser.rs:352-364 | `a.b[i] = e` reads back as an assignment to `Subscript(Dotted [a, b], i)`. |
| CodeRoundTrip.SubscriptRoundTrip | src/lua_parser.rs:224-242 | `a.b[i]` followed by anything reads back as the dotted base and the index, through the subscript rule and as an assignment target. |
| CodeRoundTrip.LocalRoundTrip | src/lua_parser.rs:407-423 | `local k = e` reads back as `(k, e)`, with the blanks after it skipped. As a statement it is the assignment to the one-part name `k`. |
| CodeRoundTrip.IfThenRoundTrip | src/lua_parser.rs:511-533 | `if c then a else b end` reads back as `IfThen(c, a, b)`, through the rule and as a statement. When `b` is empty the text has no `else`. |
| CodeRoundTrip.ElseRoundTrip | src/lua_parser.rs:522-528 | After a `then` block, `else` is present exactly when the `else` block is non-empty, and that block reads back up to `end`. |
| CodeRoundTrip.IfWithoutElse | src/lua_parser.rs:511-533 | `if c then s end` reads back as `IfThen(c, [s], [])`. |
| CodeRoundTrip.CallStmtRoundTrip | src/lua_parser.rs:535-551 | A call on its own reads as an expression statement, not as an assignment. |
| CodeRoundTrip.TopLevelLocal | src/lua_parser.rs:694-716 | `local k = e` at top level binds `k` to `e` among the locals and changes nothing else. |
| CodeRoundTrip.TopLevelFunction | src/lua_parser.rs:694-716 | `function name(...) ... end` at top level binds `name` to the function among the functions and changes nothing else. |
| CodeSteps.LValueOfPath | src/lua_parser.rs:244-253 | A dotted name with no `[` after it reads as a `Dotted` target. The subscript branch fails first. |
| CodeSteps.VarRoundTrip | src/lua_parser.rs:255-271 | A dotted name that is not a call reads as an expression holding a variable wrapped as a value. |
| CodeSteps.StmtFailsAtBlockEnd | src/lua_parser.rs:535-551 | No statement starts at the word `end` or `else`, which is what ends a block. |
| TopLevel.ParseDataExtend | src/lua_parser.rs:395-405 | A match starts with `data:extend(` and yields the value read after its blanks. |
| TopLevel.DataExtendStep | src/lua_parser.rs:395-405 | A whole value followed by `)` at the end of the text makes the call consume everything. |
| TopLevel.ParseTopLevel | src/lua_parser.rs:694-716 | A failed item leaves the context unchanged. A successful one does exactly one of: append one extended value, bind one local, bind one function, or nothing. A `data:extend` call takes priority. |
| TopLevel.ParseAll | src/lua_parser.rs:682-693 | Success leaves no input. Empty input fails. The context only grows: extended values are appended and no binding disappears. |
| TopLevel.ReadAll | src/lua_parser.rs:682-693 | The read-until-done loop computes the same context and verdict as the recursive definition. |
| DataFile.DataExtendOfPrinted | src/lua_parser.rs:694-716 | A file holding `data:extend(` printed literal `)` is read whole. It appends exactly that value to the context. |
| Decode.DecodeExpr | src/lua_parser.rs:47-56 | Succeeds exactly on `Expr`, giving the wrapped expression; otherwise "not an Expr". |
| Decode.DecodeRawMap | src/lua_parser.rs:58-77 | Succeeds exactly on a table, giving its entries; otherwise "not a Map". |
| Decode.DecodeMap | src/lua_parser.rs:58-77 | Succeeds exactly on a table whose values all convert, keeping the same keys. On failure it names some key whose value fails, with that value's error. A non-table is "not a Map". |
| Decode.RawMapIsIdentityMap | src/lua_parser.rs:58-77 | Converting to a map of raw values is the identity conversion over each entry. |
| Decode.DecodeSet | src/lua_parser.rs:79-92 | Succeeds exactly on an array whose elements all convert, giving the set of their values. On failure it names the first failing index. A non-array is "not an Array". |
| Decode.DecodeElems | src/lua_parser.rs:100-112 | Converts each element in order into a list of the same length. On failure it names the first failing index and carries that element's error. |
| Decode.DecodeVec | src/lua_parser.rs:94-113 | A non-array is "not an Array"; an array is converted element by element. |
| Decode.VecRoundTrip | src/lua_parser.rs:94-113 | Encoding a list element-wise and converting it back gives the list, given an element round trip. |
| Decode.DecodePair | src/lua_parser.rs:115-135 | Succeeds exactly on a two-element array whose members convert. It distinguishes the errors "not an Array", "invalid sized array", "first arg" and "second arg". |
| Decode.PairRoundTrip | src/lua_parser.rs:115-135 | A two-element array of encoded members converts back to the pair. |
| Decode.DecodeBool | src/lua_parser.rs:137-146 | Succeeds exactly on `Bool`, giving its value. |
| Decode.DecodeStr | src/lua_parser.rs:148-157 | Succeeds exactly on `Str`, giving its text. |
| Decode.DecodeInt | src/lua_parser.rs:159-168 | Succeeds exactly on `Int`, giving its value. |
| Decode.DecodeFloat | src/lua_parser.rs:170-180 | Succeeds exactly on `Float` or `Int`. Re-encoding the result gives the input back. |
| Decode.FloatRoundTrip | src/lua_parser.rs:170-180 | Encoding a float and converting it back gives the float. |
| Decode.WrappedLiteralNeedsSimplify | src/lua_parser.rs:137-168 | A scalar wrapped as `Expr(Literal(x))` fails every scalar conversion, and simplifying it gives back the scalar. |
| Recipes.Field | src/recipe.rs:37-44 | The key is removed whether or not its value converts, and every other entry is unchanged. The result is the value's conversion. A missing key is an error naming the key. |
| Recipes.DecodeIngredient | src/recipe.rs:46-77 | A `{string, integer}` pair is an "item" ingredient. A table needs a string `name`; `amount` defaults to 1 and `type` to "item" when missing or malformed. Anything else cannot be decoded. |
| Recipes.IngredientPairForm | src/recipe.rs:57-62 | `{name, amount}` decodes to that name and amount with type "item". |
| Recipes.IngredientRoundTrip | src/recipe.rs:63-67 | An ingredient written as a full table decodes back to itself. |
| Recipes.DecodeResults | src/recipe.rs:95-115 | `results`, when present, is decoded as an ingredient list. Otherwise a string `result` with an integer `result_count` (default 1) gives one "item". With neither entry, the error is "no result". Other entries are left in the table. |
| Recipes.SingleResult | src/recipe.rs:100-112 | A string result with a converted count gives exactly one "item" ingredient. A non-string result is "not a Str". |
| Recipes.SingleResultDefaultsToOne | src/recipe.rs:101-102 | A `result` without a `result_count` makes one ingredient of amount 1. |
| Recipes.DecodeEntries | src/recipe.rs:116-118 | `enabled` defaults to true and `energy_required` to 1 when missing or malformed. `ingredients` is required. |
| Recipes.DecodeBody | src/recipe.rs:93-119 | A body decodes exactly when its results and its ingredients do. It defaults `enabled` and `energy_required`. A results error comes first, then a missing `ingredients`. |
| Recipes.DecodeRecipe | src/recipe.rs:79-158 | A recipe needs a table with a string `name`. `category` defaults to "crafting". The body is read from the `normal` sub-table when that is a table, and from the remaining table otherwise. |
| Recipes.NormalOverridesMainTable | src/recipe.rs:91-147 | When `normal` is a table, the outer table's other entries do not affect the result. |
| Recipes.RecipeRoundTrip | src/recipe.rs:79-158 | A recipe written as a full table decodes back to itself. |
| RecipeMaps.Insert | src/recipe.rs:165-169 | Appends to the list under a name, creating it on first use, and leaves other names alone. |
| RecipeMaps.TotalListedInsert | src/recipe.rs:165-169 | Each insertion lists exactly one more entry in total. |
| RecipeMaps.NewRecipeMap | src/recipe.rs:160-175 | Under each name, the index lists the input recipes in order, each once per result of that name. Names with no producer are absent. The total number of entries is the total number of results. |
| RecipeMaps.ProducersSound | src/recipe.rs:160-175 | A recipe listed under a name is an input recipe with a result of that name. |
| RecipeMaps.ProducersComplete | src/recipe.rs:160-175 | Every input recipe is listed under the name of each of its results. |

## Left out

- `src/main.rs` is not part of this model. It holds file reading, fixed tables, float-based demand propagation and older duplicate decoders.
- Floating point: a float numeral's value is kept as its text (`Float(text)`). Integer-to-float promotion is kept as `IntValue(i)`. The recipe's `speed`, one over `energy_required`, is replaced by `energy_required` itself.
- Parse errors carry no position, context label or message. Every failure is `NoParse`, matching the recoverable errors the grammar uses, since it never commits.
- Lexer.ParseNum: a run of numeral characters that is neither an integer nor a float (such as `-` or `1.2.3`) panics in the source. Here it is a failed parse.
- Decode.DecodeMap: which failing key is named depends on hash-map iteration order, so the contract only says some failing key is named. It is a ghost function for that reason.
- Recipes.Field: the missing-key error keeps the key but not the list of keys still in the table.
- Printer.ObjectRoundTrip: printed table keys do not start with `true` or `false`. The source reads `{trueX=1}` as a table like any other, but proving so would need a backtracking argument through the boolean and expression branches of the field rule. So the restriction narrows what the lemma covers, not what the grammar accepts. Printed arrays have at least one element, since `{}` reads as a table. Strings avoid `"` and `\`.
- Lexer.ParseNamespaced: its contract states when it succeeds and what the parts are, but not which parts it reads. That is stated by `Lexer.NamespacedRoundTrip` for names followed by text that ends the name.
- Grammar.ParseArray: its contract states only the shape of the result. What it reads is stated by `Printer.ItemsRoundTrip` and `Printer.ObjectRoundTrip` for printed literals.
- Grammar.ParseFuncall: its contract states only the shape of the result. What a call reads as is stated by `CodeRoundTrip.FuncallRoundTrip`. That lemma covers calls printed with no blanks inside the argument list and readable arguments.
- Grammar.ParseBinop: its contract states only the shape of the result. What an operation reads as is stated by `CodeRoundTrip.BinopRoundTrip` and `CodeRoundTrip.ChainNestsRight`, for a left operand that is a value and single blanks around the operator.
- Grammar.ParseFunctionRest: its contract states only the shape of the result. What it reads is stated by `CodeRoundTrip.FunctionRestRoundTrip`, for bodies of readable statements.
- Grammar.ParseNamedFunction: its contract states only that the name is an identifier. What it reads is stated by `CodeRoundTrip.NamedFunctionRoundTrip`.
- Grammar.ParseLocal: its contract states only that the name is an identifier. What it reads is stated by `CodeRoundTrip.LocalRoundTrip`, for readable right-hand sides.
- Grammar.ParseIfThen: its contract states only that the `then` body is non-empty. What it reads is stated by `CodeRoundTrip.IfThenRoundTrip`. That lemma covers conditions that do not end with a parenthesised expression, since the blank left after `)` stops `then` from matching.
- The code round trips cover canonical text: single blanks around keywords, `=` and operators, and none inside argument lists. Names that start a statement or an expression must not begin with `true`, `false`, `function`, `return`, `local` or `if`. Keyword tokens have no word-boundary check, so `returned = 1` reads as `return ed` and leaves `= 1`. Assigned values must not end with a parenthesised expression.
- `parse_unhandled_body` always fails in the source and is modelled as a rule that never matches.
- The commented-out `parse_int` and `parse_float`, the `Display` impls and the serde derives are not modelled.
