/**
 * Recipes read from the simplified values of `data:extend` calls: the
 * remove-and-convert table access, ingredients in their pair and table forms,
 * and recipes with their optional `normal` sub-table, result fallbacks and
 * defaults.
 */
module Recipes {
  import opened Wrappers
  import opened LuaAst
  import opened Decode

  datatype Ingredient = Ingredient(name: string, amount: int, typ: string)

  /**
   * `energyRequired` is the divisor of the recipe's speed (speed is one over
   * it); the division itself is floating-point and is not modelled.
   */
  datatype Recipe = Recipe(
    name: string,
    category: string,
    enabled: bool,
    ingredients: seq<Ingredient>,
    energyRequired: Float64,
    results: seq<Ingredient>)

  type Table = map<string, LuaObject>

  /**
   * Removes `key` from the table and converts the value it held; a missing
   * key is an error. The entry is removed whether or not the conversion
   * succeeds, and nothing else in the table changes.
   */
  function Field<T>(m: Table, key: string, dec: LuaObject -> Decoded<T>): (r: (Table, Decoded<T>))
    ensures key !in r.0 && r.0.Keys == m.Keys - {key}
    ensures forall k :: k in r.0 ==> r.0[k] == m[k]
    ensures r.1.Success? ==> key in m && dec(m[key]) == r.1
    ensures key in m ==> r.1 == dec(m[key])
    ensures key !in m ==> r.1 == Failure(MissingKey(key))
  {
    (m - {key}, if key in m then dec(m[key]) else Failure(MissingKey(key)))
  }

  /** The string under `key`, or `d` when it is missing or not a string. */
  function StrEntryOr(m: Table, key: string, d: string): string {
    if key in m && m[key].Str? then m[key].s else d
  }

  /** The integer under `key`, or `d` when it is missing or not an integer. */
  function IntEntryOr(m: Table, key: string, d: int): int {
    if key in m && m[key].Int? then m[key].i else d
  }

  /** The boolean under `key`, or `d` when it is missing or not a boolean. */
  function BoolEntryOr(m: Table, key: string, d: bool): bool {
    if key in m && m[key].Bool? then m[key].b else d
  }

  /** The number under `key`, or `d` when it is missing or neither a float nor an integer. */
  function NumberEntryOr(m: Table, key: string, d: Float64): Float64 {
    if key in m && m[key].Float? then FloatText(m[key].text)
    else if key in m && m[key].Int? then IntValue(m[key].i)
    else d
  }

  // ---------------------------------------------------------------------------
  // Ingredients

  /** `{name, amount}`: a two-element array of a string and an integer. */
  predicate IsPairForm(o: LuaObject) {
    o.Array? && |o.items| == 2 && o.items[0].Str? && o.items[1].Int?
  }

  /**
   * An ingredient is either the pair `{name, amount}` (of type "item") or a
   * table with a string `name` and optional `amount` (default 1) and `type`
   * (default "item"); anything else cannot be decoded.
   */
  function DecodeIngredient(o: LuaObject): (r: Decoded<Ingredient>)
    ensures IsPairForm(o) ==> r == Success(Ingredient(o.items[0].s, o.items[1].i, "item"))
    ensures o.Map? && "name" in o.fields && o.fields["name"].Str? ==>
      r == Success(Ingredient(o.fields["name"].s, IntEntryOr(o.fields, "amount", 1), StrEntryOr(o.fields, "type", "item")))
    ensures o.Map? && "name" !in o.fields ==> r == Failure(MissingKey("name"))
    ensures o.Map? && "name" in o.fields && !o.fields["name"].Str? ==> r == Failure(NotA(StrKind))
    ensures !o.Map? && !IsPairForm(o) ==> r == Failure(CannotDecodeIngredient)
  {
    var arrayForm := DecodePair(o, DecodeStr, DecodeInt);
    var mapForm := DecodeRawMap(o);
    if arrayForm.Success? && mapForm.Failure? then
      Success(Ingredient(arrayForm.value.0, arrayForm.value.1, "item"))
    else if arrayForm.Failure? && mapForm.Success? then
      var (m1, name) := Field(mapForm.value, "name", DecodeStr);
      var n :- name;
      var (m2, amount) := Field(m1, "amount", DecodeInt);
      var (_, typ) := Field(m2, "type", DecodeStr);
      Success(Ingredient(n, amount.GetOr(1), typ.GetOr("item")))
    else
      Failure(CannotDecodeIngredient)
  }

  /** An ingredient written as a table with all three entries. */
  function EncodeIngredient(x: Ingredient): (o: LuaObject)
    ensures o.Map? && o.fields.Keys == {"name", "amount", "type"}
  {
    Map(map["name" := Str(x.name), "amount" := Int(x.amount), "type" := Str(x.typ)])
  }

  /** The table form reads back as the ingredient it was written from. */
  lemma IngredientRoundTrip(x: Ingredient)
    ensures DecodeIngredient(EncodeIngredient(x)) == Success(x)
  {
    var m := EncodeIngredient(x).fields;
    assert m["name"] == Str(x.name);
    assert m["amount"] == Int(x.amount) && m["type"] == Str(x.typ);
  }

  /** The pair form `{name, amount}` reads as an ingredient of type "item". */
  lemma IngredientPairForm(name: string, amount: int)
    ensures DecodeIngredient(Array([Str(name), Int(amount)])) == Success(Ingredient(name, amount, "item"))
  {
  }

  // ---------------------------------------------------------------------------
  // Recipes

  /** What a recipe reads from its body: the main table or the `normal` sub-table. */
  datatype RecipeBody = RecipeBody(results: seq<Ingredient>, enabled: bool, energyRequired: Float64, ingredients: seq<Ingredient>)

  /** Keys the result entries use; reading them leaves every other key in place. */
  predicate IsResultKey(k: string) {
    k == "results" || k == "result" || k == "result_count"
  }

  /**
   * The products of a recipe: the `results` list when present; otherwise a
   * single `result` name of type "item" with `result_count` as its amount
   * (default 1); with neither entry, an error.
   */
  function DecodeResults(m: Table): (r: (Table, Decoded<seq<Ingredient>>))
    ensures forall k :: k in m && !IsResultKey(k) ==> k in r.0 && r.0[k] == m[k]
    ensures r.0.Keys <= m.Keys
    ensures "results" in m ==> r.1 == DecodeVec(m["results"], DecodeIngredient)
    ensures "results" !in m && "result" !in m ==> r.1 == Failure(NoResultEntry)
    ensures "results" !in m && "result" in m ==>
      (r.1.Success? <==> m["result"].Str? && ("result_count" in m ==> m["result_count"].Int?))
    ensures "results" !in m && "result" in m && r.1.Success? ==>
      r.1.value == [Ingredient(m["result"].s, IntEntryOr(m, "result_count", 1), "item")]
  {
    if "results" in m then
      (m - {"results"}, DecodeVec(m["results"], DecodeIngredient))
    else if "result" !in m then
      (m, Failure(NoResultEntry))
    else
      var res := m["result"];
      var m1 := m - {"result"};
      if "result_count" in m1 then
        (m1 - {"result_count"}, SingleResult(res, DecodeInt(m1["result_count"])))
      else
        (m1, SingleResult(res, Success(1)))
  }

  /** One result named by `res`, with the already converted count. */
  function SingleResult(res: LuaObject, count: Decoded<int>): (r: Decoded<seq<Ingredient>>)
    ensures r.Success? <==> res.Str? && count.Success?
    ensures r.Success? ==> r.value == [Ingredient(res.s, count.value, "item")]
    ensures !res.Str? ==> r == Failure(NotA(StrKind))
  {
    var name :- DecodeStr(res);
    var c :- count;
    Success([Ingredient(name, c, "item")])
  }

  /**
   * The body of a recipe: results first, then `enabled` (default true),
   * `energy_required` (default 1) and the required `ingredients` list. The
   * first error met, in that order, is the result.
   */
  function DecodeBody(m: Table): (r: Decoded<RecipeBody>)
    ensures r.Success? <==>
      && DecodeResults(m).1.Success?
      && "ingredients" in m && DecodeVec(m["ingredients"], DecodeIngredient).Success?
    ensures r.Success? ==> r.value == RecipeBody(
      DecodeResults(m).1.value,
      BoolEntryOr(m, "enabled", true),
      NumberEntryOr(m, "energy_required", IntValue(1)),
      DecodeVec(m["ingredients"], DecodeIngredient).value)
    ensures DecodeResults(m).1.Failure? ==> r == Failure(DecodeResults(m).1.error)
    ensures DecodeResults(m).1.Success? && "ingredients" !in m ==> r == Failure(MissingKey("ingredients"))
  {
    var (m1, results) := DecodeResults(m);
    var res :- results;
    assert "ingredients" in m1 <==> "ingredients" in m;
    assert "enabled" in m1 <==> "enabled" in m;
    assert "energy_required" in m1 <==> "energy_required" in m;
    DecodeEntries(m1, res)
  }

  /** The entries after the results: `enabled`, `energy_required` and `ingredients`. */
  function DecodeEntries(m: Table, res: seq<Ingredient>): (r: Decoded<RecipeBody>)
    ensures r.Success? <==> "ingredients" in m && DecodeVec(m["ingredients"], DecodeIngredient).Success?
    ensures r.Success? ==> r.value == RecipeBody(
      res,
      BoolEntryOr(m, "enabled", true),
      NumberEntryOr(m, "energy_required", IntValue(1)),
      DecodeVec(m["ingredients"], DecodeIngredient).value)
    ensures "ingredients" !in m ==> r == Failure(MissingKey("ingredients"))
  {
    var (m2, enabled) := Field(m, "enabled", DecodeBool);
    var (m3, energy) := Field(m2, "energy_required", DecodeFloat);
    var (_, ingredients) := Field(m3, "ingredients", (v: LuaObject) => DecodeVec(v, DecodeIngredient));
    var ings :- ingredients;
    Success(RecipeBody(res, enabled.GetOr(true), energy.GetOr(IntValue(1)), ings))
  }

  /**
   * The table a recipe's body is read from: the `normal` sub-table when that
   * entry is a table, otherwise the recipe table itself without the entries
   * already taken.
   */
  function BodyTable(m: Table): Table {
    if "normal" in m && m["normal"].Map? then m["normal"].fields
    else m - {"name", "category", "normal"}
  }

  /**
   * A recipe is a table with a string `name`, an optional `category`
   * (default "crafting"), and a body read from its `normal` sub-table when
   * there is one and from the table itself otherwise.
   */
  function DecodeRecipe(o: LuaObject): (r: Decoded<Recipe>)
    ensures !o.Map? ==> r == Failure(NotA(MapKind))
    ensures o.Map? && "name" !in o.fields ==> r == Failure(MissingKey("name"))
    ensures o.Map? && "name" in o.fields && !o.fields["name"].Str? ==> r == Failure(NotA(StrKind))
    ensures o.Map? && "name" in o.fields && o.fields["name"].Str? ==>
      (r.Success? <==> DecodeBody(BodyTable(o.fields)).Success?)
    ensures r.Success? ==>
      var body := DecodeBody(BodyTable(o.fields)).value;
      r.value == Recipe(o.fields["name"].s, StrEntryOr(o.fields, "category", "crafting"),
                        body.enabled, body.ingredients, body.energyRequired, body.results)
  {
    var conts :- DecodeRawMap(o);
    var (m1, name) := Field(conts, "name", DecodeStr);
    var n :- name;
    var (m2, category) := Field(m1, "category", DecodeStr);
    var (m3, normal) := Field(m2, "normal", DecodeRawMap);
    assert normal.Failure? ==> m3 == BodyTable(conts);
    var body :- if normal.Success? then DecodeBody(normal.value) else DecodeBody(m3);
    Success(Recipe(n, category.GetOr("crafting"), body.enabled, body.ingredients, body.energyRequired, body.results))
  }

  /** A recipe written as a table with every entry, results as a list. */
  function EncodeRecipe(x: Recipe): (o: LuaObject)
    ensures o.Map? && "normal" !in o.fields
  {
    Map(map[
      "name" := Str(x.name),
      "category" := Str(x.category),
      "enabled" := Bool(x.enabled),
      "energy_required" := EncodeFloat(x.energyRequired),
      "ingredients" := EncodeSeq(x.ingredients, EncodeIngredient),
      "results" := EncodeSeq(x.results, EncodeIngredient)])
  }

  /** A body table holding the encoded parts of `x` reads back as those parts. */
  lemma BodyFromEntries(b: Table, x: Recipe)
    requires "results" in b && b["results"] == EncodeSeq(x.results, EncodeIngredient)
    requires "ingredients" in b && b["ingredients"] == EncodeSeq(x.ingredients, EncodeIngredient)
    requires "energy_required" in b && b["energy_required"] == EncodeFloat(x.energyRequired)
    requires "enabled" in b && b["enabled"] == Bool(x.enabled)
    ensures DecodeBody(b) == Success(RecipeBody(x.results, x.enabled, x.energyRequired, x.ingredients))
  {
    forall y: Ingredient ensures DecodeIngredient(EncodeIngredient(y)) == Success(y) {
      IngredientRoundTrip(y);
    }
    VecRoundTrip(x.ingredients, EncodeIngredient, DecodeIngredient);
    VecRoundTrip(x.results, EncodeIngredient, DecodeIngredient);
    assert DecodeResults(b).1 == Success(x.results);
    assert NumberEntryOr(b, "energy_required", IntValue(1)) == x.energyRequired;
  }

  /** A recipe written with `EncodeRecipe` reads back as itself. */
  lemma RecipeRoundTrip(x: Recipe)
    ensures DecodeRecipe(EncodeRecipe(x)) == Success(x)
  {
    var m := EncodeRecipe(x).fields;
    var b := BodyTable(m);
    assert b == m - {"name", "category", "normal"};
    assert b["results"] == EncodeSeq(x.results, EncodeIngredient);
    assert b["ingredients"] == EncodeSeq(x.ingredients, EncodeIngredient);
    assert b["energy_required"] == EncodeFloat(x.energyRequired);
    assert b["enabled"] == Bool(x.enabled);
    BodyFromEntries(b, x);
    assert m["name"] == Str(x.name);
    assert m["category"] == Str(x.category);
  }

  /**
   * With a `normal` sub-table, a recipe depends only on its name, its
   * category and that sub-table: entries of the main table such as
   * `results` or `ingredients` are ignored.
   */
  lemma NormalOverridesMainTable(m: Table, m': Table)
    requires "normal" in m && m["normal"].Map?
    requires forall k :: k in {"name", "category", "normal"} ==> (k in m <==> k in m') && (k in m ==> m[k] == m'[k])
    ensures DecodeRecipe(Map(m)) == DecodeRecipe(Map(m'))
  {
    assert BodyTable(m) == BodyTable(m');
  }

  /** A single `result` without `result_count` makes one product of amount 1. */
  lemma SingleResultDefaultsToOne(m: Table, name: string)
    requires "results" !in m && "result_count" !in m
    requires "result" in m && m["result"] == Str(name)
    ensures DecodeResults(m).1 == Success([Ingredient(name, 1, "item")])
  {
  }
}
