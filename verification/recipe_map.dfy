/**
 * The index from product name to the recipes that make it. A recipe is listed
 * under every name among its results, once per result with that name, and
 * the recipes under one name keep the order of the input list.
 */
module RecipeMaps {
  import opened Recipes

  /** How many of `results` are named `p`. */
  function CountNamed(results: seq<Ingredient>, p: string): nat {
    if results == [] then 0
    else CountNamed(results[..|results| - 1], p) + (if results[|results| - 1].name == p then 1 else 0)
  }

  /** `n` copies of `x`. */
  function Repeat(x: Recipe, n: nat): (r: seq<Recipe>)
    ensures |r| == n
    ensures forall i :: 0 <= i < n ==> r[i] == x
  {
    if n == 0 then [] else Repeat(x, n - 1) + [x]
  }

  /**
   * The reference listing for `p`: the recipes of `rs` in order, each repeated
   * once per result of it named `p`.
   */
  function Producers(rs: seq<Recipe>, p: string): seq<Recipe> {
    if rs == [] then []
    else Producers(rs[..|rs| - 1], p) + Repeat(rs[|rs| - 1], CountNamed(rs[|rs| - 1].results, p))
  }

  /** `m` lists, under each name, exactly the reference listing of `rs` for it. */
  ghost predicate IndexOf(m: map<string, seq<Recipe>>, rs: seq<Recipe>) {
    forall p :: (p in m <==> Producers(rs, p) != []) && (p in m ==> m[p] == Producers(rs, p))
  }

  /** The listing while recipe `x` is being added, its results `done` already handled. */
  function Partial(rs: seq<Recipe>, x: Recipe, done: seq<Ingredient>, p: string): seq<Recipe> {
    Producers(rs, p) + Repeat(x, CountNamed(done, p))
  }

  ghost predicate PartialIndexOf(m: map<string, seq<Recipe>>, rs: seq<Recipe>, x: Recipe, done: seq<Ingredient>) {
    forall p :: (p in m <==> Partial(rs, x, done, p) != []) && (p in m ==> m[p] == Partial(rs, x, done, p))
  }

  /** Appends `x` to the list under `name`, starting the list when there is none. */
  function Insert(m: map<string, seq<Recipe>>, name: string, x: Recipe): (r: map<string, seq<Recipe>>)
    ensures r.Keys == m.Keys + {name}
    ensures r[name] == (if name in m then m[name] else []) + [x]
    ensures forall p :: p in m && p != name ==> r[p] == m[p]
  {
    if name in m then m[name := m[name] + [x]] else m[name := [x]]
  }

  lemma InsertStep(m: map<string, seq<Recipe>>, rs: seq<Recipe>, x: Recipe, done: seq<Ingredient>, out: Ingredient)
    requires PartialIndexOf(m, rs, x, done)
    ensures PartialIndexOf(Insert(m, out.name, x), rs, x, done + [out])
  {
    var done' := done + [out];
    assert done'[..|done'| - 1] == done;
    forall p ensures CountNamed(done', p) == CountNamed(done, p) + (if out.name == p then 1 else 0) {
    }
    var n := CountNamed(done, out.name);
    assert Repeat(x, n + 1) == Repeat(x, n) + [x];
    assert Partial(rs, x, done', out.name) == Partial(rs, x, done, out.name) + [x];
  }

  lemma StartRecipe(m: map<string, seq<Recipe>>, rs: seq<Recipe>, x: Recipe)
    requires IndexOf(m, rs)
    ensures PartialIndexOf(m, rs, x, [])
  {
    forall p ensures Partial(rs, x, [], p) == Producers(rs, p) {
      assert Repeat(x, 0) == [];
    }
  }

  lemma FinishRecipe(m: map<string, seq<Recipe>>, rs: seq<Recipe>, x: Recipe)
    requires PartialIndexOf(m, rs, x, x.results)
    ensures IndexOf(m, rs + [x])
  {
    var rs' := rs + [x];
    assert rs'[..|rs'| - 1] == rs;
    forall p ensures Producers(rs', p) == Partial(rs, x, x.results, p) {
    }
  }

  /** The number of results over all recipes. */
  function TotalResults(rs: seq<Recipe>): nat {
    if rs == [] then 0 else TotalResults(rs[..|rs| - 1]) + |rs[|rs| - 1].results|
  }

  /** Some key of a non-empty index. */
  ghost function Pick(m: map<string, seq<Recipe>>): (k: string)
    requires m != map[]
    ensures k in m
  {
    var k :| k in m; k
  }

  /** The number of entries listed over all names of an index. */
  ghost function TotalListed(m: map<string, seq<Recipe>>): nat
    decreases |m.Keys|
  {
    if m == map[] then 0
    else
      var k := Pick(m);
      assert (m - {k}).Keys == m.Keys - {k};
      |m[k]| + TotalListed(m - {k})
  }

  /** The total does not depend on which key is counted first. */
  lemma {:induction false} TotalListedRemove(m: map<string, seq<Recipe>>, k: string)
    requires k in m
    ensures TotalListed(m) == |m[k]| + TotalListed(m - {k})
    decreases |m.Keys|
  {
    var c := Pick(m);
    if c != k {
      assert (m - {c}).Keys == m.Keys - {c};
      assert (m - {k}).Keys == m.Keys - {k};
      TotalListedRemove(m - {c}, k);
      TotalListedRemove(m - {k}, c);
      assert m - {c} - {k} == m - {k} - {c};
    }
  }

  /** Appending one recipe under one name lists exactly one more entry. */
  lemma TotalListedInsert(m: map<string, seq<Recipe>>, name: string, x: Recipe)
    ensures TotalListed(Insert(m, name, x)) == TotalListed(m) + 1
  {
    var m' := Insert(m, name, x);
    TotalListedRemove(m', name);
    assert m' - {name} == m - {name};
    if name in m {
      TotalListedRemove(m, name);
    } else {
      assert m - {name} == m;
    }
  }

  /** `m` is the index of `rs`, and lists one entry per result of `rs`. */
  ghost predicate Built(m: map<string, seq<Recipe>>, rs: seq<Recipe>) {
    IndexOf(m, rs) && TotalListed(m) == TotalResults(rs)
  }

  /** `m` is the index while `x` is being added, with its results `done` already listed. */
  ghost predicate PartialBuilt(m: map<string, seq<Recipe>>, rs: seq<Recipe>, x: Recipe, done: seq<Ingredient>) {
    PartialIndexOf(m, rs, x, done) && TotalListed(m) == TotalResults(rs) + |done|
  }

  lemma BuildStart(m: map<string, seq<Recipe>>, rs: seq<Recipe>, x: Recipe)
    requires Built(m, rs)
    ensures PartialBuilt(m, rs, x, [])
  {
    StartRecipe(m, rs, x);
  }

  /** Listing the `j`-th result of `x`. */
  lemma BuildInsert(m: map<string, seq<Recipe>>, rs: seq<Recipe>, x: Recipe, j: nat)
    requires j < |x.results| && PartialBuilt(m, rs, x, x.results[..j])
    ensures PartialBuilt(Insert(m, x.results[j].name, x), rs, x, x.results[..j + 1])
  {
    InsertStep(m, rs, x, x.results[..j], x.results[j]);
    TotalListedInsert(m, x.results[j].name, x);
    PrefixSnoc(x.results, j);
  }

  /** A prefix followed by the next element is the next prefix. */
  lemma PrefixSnoc<T>(s: seq<T>, j: nat)
    requires j < |s|
    ensures s[..j] + [s[j]] == s[..j + 1]
  {
  }

  /** Once every result of the `i`-th recipe is listed, the first `i + 1` recipes are indexed. */
  lemma BuildFinish(m: map<string, seq<Recipe>>, recipes: seq<Recipe>, i: nat)
    requires i < |recipes|
    requires PartialBuilt(m, recipes[..i], recipes[i], recipes[i].results[..|recipes[i].results|])
    ensures Built(m, recipes[..i + 1])
  {
    var x := recipes[i];
    assert x.results[..|x.results|] == x.results;
    FinishRecipe(m, recipes[..i], x);
    PrefixSnoc(recipes, i);
    assert recipes[..i + 1][..i] == recipes[..i];
  }

  /**
   * Builds the index by walking the recipes in order and, for each result,
   * appending the recipe to the list under the result's name (creating the
   * list on first use).
   */
  method NewRecipeMap(recipes: seq<Recipe>) returns (m: map<string, seq<Recipe>>)
    ensures forall p :: p in m <==> Producers(recipes, p) != []
    ensures forall p :: p in m ==> m[p] == Producers(recipes, p)
    ensures TotalListed(m) == TotalResults(recipes)
  {
    m := map[];
    for i := 0 to |recipes|
      invariant Built(m, recipes[..i])
    {
      var recipe := recipes[i];
      BuildStart(m, recipes[..i], recipe);
      for j := 0 to |recipe.results|
        invariant PartialBuilt(m, recipes[..i], recipe, recipe.results[..j])
      {
        var output := recipe.results[j];
        ghost var prev := m;
        BuildInsert(m, recipes[..i], recipe, j);
        if output.name in m {
          m := m[output.name := m[output.name] + [recipe]];
        } else {
          m := m[output.name := [recipe]];
        }
        assert m == Insert(prev, output.name, recipe);
      }
      BuildFinish(m, recipes, i);
    }
    assert recipes[..|recipes|] == recipes;
  }

  /** `CountNamed` is positive exactly when some result has the name. */
  lemma {:induction false} CountNamedPositive(results: seq<Ingredient>, p: string)
    ensures CountNamed(results, p) > 0 <==> exists j :: 0 <= j < |results| && results[j].name == p
  {
    if results != [] {
      var init := results[..|results| - 1];
      CountNamedPositive(init, p);
      if exists j :: 0 <= j < |init| && init[j].name == p {
        var j :| 0 <= j < |init| && init[j].name == p;
        assert results[j].name == p;
      }
      if exists j :: 0 <= j < |results| && results[j].name == p {
        var j :| 0 <= j < |results| && results[j].name == p;
        if j < |init| {
          assert init[j].name == p;
        }
      }
    }
  }

  /**
   * A recipe is listed under `p` only if it is one of the input recipes and
   * one of its results is named `p`.
   */
  lemma {:induction false} ProducersSound(rs: seq<Recipe>, p: string, x: Recipe)
    requires x in Producers(rs, p)
    ensures x in rs
    ensures exists j :: 0 <= j < |x.results| && x.results[j].name == p
  {
    var init := rs[..|rs| - 1];
    var last := rs[|rs| - 1];
    if x in Producers(init, p) {
      ProducersSound(init, p, x);
      assert rs == init + [last];
    } else {
      assert x == last && CountNamed(last.results, p) > 0;
      CountNamedPositive(last.results, p);
    }
  }

  /** Every input recipe is listed under each name among its results. */
  lemma {:induction false} ProducersComplete(rs: seq<Recipe>, p: string, i: nat, j: nat)
    requires i < |rs| && j < |rs[i].results| && rs[i].results[j].name == p
    ensures rs[i] in Producers(rs, p)
  {
    var init := rs[..|rs| - 1];
    var last := rs[|rs| - 1];
    if i < |rs| - 1 {
      assert init[i] == rs[i];
      ProducersComplete(init, p, i, j);
    } else {
      CountNamedPositive(last.results, p);
      assert Repeat(last, CountNamed(last.results, p))[0] == last;
    }
  }
}
