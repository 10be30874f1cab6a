/** The recipe store of services/recipeService.ts. */
module RecipeService {

  import opened Types
  import RecipeBook
  import Demand

  /** `recipeService` over its store `localRecipes`. */
  class RecipeStore {
    var recipes: seq<Recipe>

    /** The sample recipes the store is seeded with are the argument. */
    constructor (initial: seq<Recipe>)
      ensures recipes == initial
    {
      recipes := initial;
    }

    /** `getRecipes`: a copy of the store. */
    method GetRecipes() returns (r: seq<Recipe>)
      ensures r == recipes
    {
      r := recipes;
    }

    /** `saveRecipe`: replace the first recipe with the id or append; the recipe is returned
        and is what a lookup of its id now finds. */
    method SaveRecipe(recipe: Recipe) returns (saved: Recipe)
      modifies this
      ensures recipes == RecipeBook.Upsert(old(recipes), recipe)
      ensures Demand.FindRecipe(recipes, recipe.id) == Some(recipe)
      ensures saved == recipe
    {
      var idx := RecipeBook.FindRecipeIndex(recipes, recipe.id);
      RecipeBook.UpsertSpec(recipes, recipe);
      if idx.Some? {
        recipes := recipes[idx.value := recipe];
      } else {
        recipes := recipes + [recipe];
      }
      saved := recipe;
    }

    /** `deleteRecipe`. */
    method DeleteRecipe(id: string)
      modifies this
      ensures recipes == RecipeBook.RemoveRecipe(old(recipes), id)
      ensures Demand.FindRecipe(recipes, id).None?
    {
      RecipeBook.RemoveRecipeSpec(recipes, id);
      recipes := RecipeBook.RemoveRecipe(recipes, id);
    }
  }
}
