/** The recipe collection: saving (`handleSaveRecipe`, `recipeService.saveRecipe`), deleting
    (`onDelete` of the recipe view, `recipeService.deleteRecipe`) and the recipe search box. */
module RecipeBook {

  import opened Types
  import opened Text
  import opened Lists
  import Demand

  /** `findIndex(r => r.id === id)`, `None` standing for `-1`. */
  function FindRecipeIndex(recipes: seq<Recipe>, id: string): (r: Option<nat>)
    ensures r.Some? ==> r.value < |recipes| && recipes[r.value].id == id
  {
    if recipes == [] then None
    else if recipes[0].id == id then Some(0)
    else match FindRecipeIndex(recipes[1..], id)
      case None => None
      case Some(k) => Some(k + 1)
  }

  /** The index found is the first with the id, no index is found only when no recipe has the
      id, and the recipe at the index is the one `find` returns. */
  lemma {:induction false} FindRecipeIndexFacts(recipes: seq<Recipe>, id: string)
    ensures FindRecipeIndex(recipes, id).Some? ==>
      (forall k :: 0 <= k < FindRecipeIndex(recipes, id).value ==> recipes[k].id != id) &&
      Demand.FindRecipe(recipes, id) == Some(recipes[FindRecipeIndex(recipes, id).value])
    ensures FindRecipeIndex(recipes, id).None? <==> forall k :: 0 <= k < |recipes| ==> recipes[k].id != id
    ensures FindRecipeIndex(recipes, id).None? <==> Demand.FindRecipe(recipes, id).None?
  {
    if recipes != [] && recipes[0].id != id {
      FindRecipeIndexFacts(recipes[1..], id);
      assert forall k :: 0 < k < |recipes| ==> recipes[k] == recipes[1..][k - 1];
    }
  }

  /** Saving a recipe: it replaces the first recipe with its id, or is appended. */
  function Upsert(recipes: seq<Recipe>, recipe: Recipe): seq<Recipe>
  {
    match FindRecipeIndex(recipes, recipe.id)
      case Some(k) => recipes[k := recipe]
      case None => recipes + [recipe]
  }

  /** With a known id, exactly the first position carrying it is replaced; with a new id the
      recipe is appended; either way looking the id up afterwards finds the saved recipe. */
  lemma UpsertSpec(recipes: seq<Recipe>, recipe: Recipe)
    ensures (exists k :: 0 <= k < |recipes| && recipes[k].id == recipe.id) ==>
      exists k :: 0 <= k < |recipes| && recipes[k].id == recipe.id &&
        (forall i :: 0 <= i < k ==> recipes[i].id != recipe.id) &&
        Upsert(recipes, recipe) == recipes[k := recipe]
    ensures (forall k :: 0 <= k < |recipes| ==> recipes[k].id != recipe.id) ==>
      Upsert(recipes, recipe) == recipes + [recipe]
    ensures Demand.FindRecipe(Upsert(recipes, recipe), recipe.id) == Some(recipe)
  {
    FindRecipeIndexFacts(recipes, recipe.id);
    var r := Upsert(recipes, recipe);
    FindRecipeIndexFacts(r, recipe.id);
    match FindRecipeIndex(recipes, recipe.id)
    case Some(k) =>
      assert r[k].id == recipe.id;
    case None =>
      assert r[|recipes|].id == recipe.id;
  }

  /** Saving the same recipe again changes nothing. */
  lemma UpsertTwice(recipes: seq<Recipe>, recipe: Recipe)
    ensures Upsert(Upsert(recipes, recipe), recipe) == Upsert(recipes, recipe)
  {
    FindRecipeIndexFacts(recipes, recipe.id);
    var r := Upsert(recipes, recipe);
    FindRecipeIndexFacts(r, recipe.id);
    match FindRecipeIndex(recipes, recipe.id)
    case Some(k) =>
      assert r[k].id == recipe.id;
    case None =>
      assert r[|recipes|].id == recipe.id;
  }

  predicate IdIsNot(x: Recipe, id: string)
  {
    x.id != id
  }

  /** Deleting: every recipe with the id goes, the others stay in their order. */
  function RemoveRecipe(recipes: seq<Recipe>, id: string): seq<Recipe>
  {
    Filter(recipes, (x: Recipe) => IdIsNot(x, id))
  }

  /** Deleting from two runs of recipes deletes from each and keeps their order. */
  lemma RemoveRecipeAppend(a: seq<Recipe>, b: seq<Recipe>, id: string)
    ensures RemoveRecipe(a + b, id) == RemoveRecipe(a, id) + RemoveRecipe(b, id)
  {
    FilterAppend(a, b, (x: Recipe) => IdIsNot(x, id));
  }

  lemma RemoveRecipeSpec(recipes: seq<Recipe>, id: string)
    ensures forall x :: x in RemoveRecipe(recipes, id) <==> x in recipes && x.id != id
    ensures Demand.FindRecipe(RemoveRecipe(recipes, id), id).None?
    ensures (forall k :: 0 <= k < |recipes| ==> recipes[k].id != id) ==> RemoveRecipe(recipes, id) == recipes
  {
    var p := (x: Recipe) => IdIsNot(x, id);
    FilterFacts(recipes, p);
    var r := RemoveRecipe(recipes, id);
    Demand.FindRecipeFacts(r, id);
    forall k | 0 <= k < |r| ensures r[k].id != id {
      assert p(r[k]);
    }
    if forall k :: 0 <= k < |recipes| ==> recipes[k].id != id {
      FilterAllPass(recipes, p);
    }
  }

  /** Deleting an id undoes saving a recipe with it: whatever was stored under the id before,
      the rest of the collection is what it was. */
  lemma RemoveAfterUpsert(recipes: seq<Recipe>, recipe: Recipe)
    ensures RemoveRecipe(Upsert(recipes, recipe), recipe.id) == RemoveRecipe(recipes, recipe.id)
  {
    var p := (x: Recipe) => IdIsNot(x, recipe.id);
    match FindRecipeIndex(recipes, recipe.id)
    case Some(k) =>
      var r := recipes[k := recipe];
      assert recipes == recipes[..k] + [recipes[k]] + recipes[k + 1..];
      assert r == recipes[..k] + [recipe] + recipes[k + 1..];
      FilterAppend(recipes[..k] + [recipes[k]], recipes[k + 1..], p);
      FilterAppend(recipes[..k], [recipes[k]], p);
      FilterAppend(recipes[..k] + [recipe], recipes[k + 1..], p);
      FilterAppend(recipes[..k], [recipe], p);
    case None =>
      FilterAppend(recipes, [recipe], p);
  }

  /** `xs.some(x => x.toLowerCase().includes(q))`, for a query `q` already in lower case. */
  function AnyIncludes(xs: seq<string>, q: string): (r: bool)
    ensures r <==> exists i :: 0 <= i < |xs| && Includes(Lower(xs[i]), q)
  {
    if xs == [] then false
    else if Includes(Lower(xs[0]), q) then true
    else
      var rest := AnyIncludes(xs[1..], q);
      assert forall i :: 0 < i < |xs| ==> xs[i] == xs[1..][i - 1];
      rest
  }

  function IngredientNames(ings: seq<Ingredient>): (r: seq<string>)
    ensures |r| == |ings| && forall i :: 0 <= i < |ings| ==> r[i] == ings[i].name
  {
    seq(|ings|, i requires 0 <= i < |ings| => ings[i].name)
  }

  /** The search box's test: the lower-cased query occurs in the lower-cased title, in a
      lower-cased tag or in a lower-cased ingredient name. */
  predicate MatchesQuery(r: Recipe, query: string)
  {
    var q := Lower(query);
    Includes(Lower(r.title), q) || AnyIncludes(r.tags, q) || AnyIncludes(IngredientNames(r.ingredients), q)
  }

  /** The recipes shown for a search, in collection order. */
  function Search(recipes: seq<Recipe>, query: string): seq<Recipe>
  {
    Filter(recipes, (r: Recipe) => MatchesQuery(r, query))
  }

  lemma LowerTwice(s: string)
    ensures Lower(Lower(s)) == Lower(s)
  {
  }

  /** The search keeps exactly the matching recipes, ignores the case of ASCII letters in the
      query, and an empty query shows the whole collection. */
  lemma SearchSpec(recipes: seq<Recipe>, query: string)
    ensures forall r :: r in Search(recipes, query) <==> r in recipes && MatchesQuery(r, query)
    ensures Search(recipes, Lower(query)) == Search(recipes, query)
    ensures Search(recipes, []) == recipes
  {
    FilterFacts(recipes, (r: Recipe) => MatchesQuery(r, query));
    LowerTwice(query);
    FilterCongruent(recipes, (r: Recipe) => MatchesQuery(r, Lower(query)), (r: Recipe) => MatchesQuery(r, query));
    forall k | 0 <= k < |recipes| ensures MatchesQuery(recipes[k], []) {
      assert Lower([]) == [];
      assert OccursAt(Lower(recipes[k].title), [], 0);
    }
    FilterAllPass(recipes, (r: Recipe) => MatchesQuery(r, []));
  }
}
