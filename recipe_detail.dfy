/** The detail page of one recipe: the inventory items it can use. */
module RecipeDetail {
  import opened Seqs
  import opened Text
  import opened FoodItems
  import opened RecipeRecommendations

  /** `recipe.ingredients.contains { $0.lowercased() == name.lowercased() }`. */
  function UsesIngredient(ingredients: seq<string>, name: string): (b: bool)
    ensures b <==> exists i :: 0 <= i < |ingredients| && Lower(ingredients[i]) == Lower(name)
    decreases |ingredients|
  {
    if ingredients == [] then false
    else
      Lower(ingredients[0]) == Lower(name) || UsesIngredient(ingredients[1..], name)
  }

  /** Items the recipe uses. */
  function UsedBy(recipe: Recipe): FoodItem -> bool
  {
    (x: FoodItem) => UsesIngredient(recipe.ingredients, x.name)
  }

  /** `matchingFoodItems`: the items whose name is, up to case, one of the
      recipe's ingredients. */
  function MatchingFoodItems(recipe: Recipe, foodItems: seq<FoodItem>): (r: seq<FoodItem>)
    ensures forall x :: x in r <==>
      x in foodItems && exists i :: 0 <= i < |recipe.ingredients| && Lower(recipe.ingredients[i]) == Lower(x.name)
  {
    FilterMembers(foodItems, UsedBy(recipe));
    Filter(foodItems, UsedBy(recipe))
  }

  /** The matching items keep their inventory order, and every copy of a
      matching item is listed. */
  lemma MatchingKeepsOrderAndCopies(recipe: Recipe, foodItems: seq<FoodItem>)
    ensures IsSubsequence(MatchingFoodItems(recipe, foodItems), foodItems)
    ensures forall x ::
              multiset(MatchingFoodItems(recipe, foodItems))[x] == if UsesIngredient(recipe.ingredients, x.name) then multiset(foodItems)[x] else 0
  {
    FilterIsSubsequence(foodItems, UsedBy(recipe));
    forall x
      ensures multiset(Filter(foodItems, UsedBy(recipe)))[x] == if UsedBy(recipe)(x) then multiset(foodItems)[x] else 0
    {
      FilterMultiplicity(foodItems, UsedBy(recipe), x);
    }
  }

  /** A recipe without ingredients matches nothing. */
  lemma NoIngredientsNoMatches(recipe: Recipe, foodItems: seq<FoodItem>)
    requires recipe.ingredients == []
    ensures MatchingFoodItems(recipe, foodItems) == []
  {
    FilterNone(foodItems, UsedBy(recipe));
  }

  /** Whether the page shows its "Available Ingredients" section. */
  function ShowsAvailableIngredients(recipe: Recipe, foodItems: seq<FoodItem>): (b: bool)
    ensures b <==> exists x :: x in foodItems && UsesIngredient(recipe.ingredients, x.name)
  {
    var matching := MatchingFoodItems(recipe, foodItems);
    assert matching != [] ==> matching[0] in matching;
    matching != []
  }

  /** A recommended recipe with at least one ingredient always has something
      to show under "Available Ingredients". */
  lemma RecommendedRecipeHasMatches(recipes: seq<Recipe>, foodItems: seq<FoodItem>, recipe: Recipe)
    requires recipe in FilteredRecipes(recipes, foodItems)
    requires recipe.ingredients != []
    ensures ShowsAvailableIngredients(recipe, foodItems)
  {
    assert HasItemNamed(foodItems, recipe.ingredients[0]);
    var x :| x in foodItems && Lower(x.name) == Lower(recipe.ingredients[0]);
    assert UsesIngredient(recipe.ingredients, x.name);
  }
}
