/** The recipe tables (backend/recipes/models.py): their rows, the uniqueness
    constraints the database enforces on them and the `__str__` rendering of
    an ingredient. A table is a sequence of rows. */
module RecipeModels {
  import opened Common

  /** `Ingredient`: a name and a measurement unit. */
  datatype Ingredient = Ingredient(name: string, measurementUnit: string)

  /** The scalar fields of `Recipe`; the image is its stored file name. */
  datatype Recipe = Recipe(author: UserId, name: string, image: string, text: string,
                           cookingTime: nat)

  /** `RecipeIngredient`: one ingredient of a recipe and its amount. */
  datatype RecipeIngredient = RecipeIngredient(recipe: RecipeId, ingredient: IngredientId,
                                               amount: nat)

  /** A row of `Favorite` or of `ShoppingCart` (both are `UserRecipeBase`). */
  datatype UserRecipe = UserRecipe(user: UserId, recipe: RecipeId)

  /** `unique_name_unit`: no two ingredients share name and unit. */
  predicate UniqueNameUnit(ingredients: seq<Ingredient>) {
    NoDuplicates(ingredients)
  }

  /** `unique_recipe_ingredient`: a recipe links each ingredient at most once. */
  predicate UniqueRecipeIngredient(links: seq<RecipeIngredient>) {
    forall i, j :: 0 <= i < j < |links| ==>
      links[i].recipe != links[j].recipe || links[i].ingredient != links[j].ingredient
  }

  /** `%(class)s_unique_user_recipe`: a user has a recipe at most once in
      their favourites, and at most once in their cart. */
  predicate UniqueUserRecipe(rows: seq<UserRecipe>) {
    NoDuplicates(rows)
  }

  /** `Ingredient.__str__`: `f'{name} ({measurement_unit})'`. The name is a
      prefix and the unit in parentheses ends the string, so the unit can be
      read back from the end. */
  function IngredientStr(i: Ingredient): (s: string)
    ensures |s| == |i.name| + |i.measurementUnit| + 3
    ensures IsPrefix(i.name + " (", s)
    ensures s[|s| - 1] == ')' && s[|s| - 1 - |i.measurementUnit|..|s| - 1] == i.measurementUnit
  {
    var s := (i.name + " (") + i.measurementUnit + ")";
    assert s[..|i.name + " ("|] == i.name + " (";
    s
  }

  /** Two ingredients with the same unit render the same only if they are the
      same ingredient. */
  lemma IngredientStrInjectiveForUnit(a: Ingredient, b: Ingredient)
    requires a.measurementUnit == b.measurementUnit
    requires IngredientStr(a) == IngredientStr(b)
    ensures a == b
  {
    var sa, sb := IngredientStr(a), IngredientStr(b);
    var u := a.measurementUnit;
    assert |a.name| == |b.name|;
    assert a.name == sa[..|a.name|];
    assert b.name == sb[..|b.name|];
  }
}
