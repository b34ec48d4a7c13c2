/** The recipe list: a recipe is recommended when every one of its
    ingredients names, up to case, some item of the inventory. */
module RecipeRecommendations {
  import opened Seqs
  import opened Text
  import opened FoodItems

  /** The `Recipe` record; its `UUID` is abstracted to a number. */
  datatype Recipe = Recipe(id: Id, title: string, ingredients: seq<string>, imageName: string)

  /** The recipes the screen ships with. */
  const SampleRecipes: seq<Recipe> := [
    Recipe(0, "Apple Pie", ["Apple", "Flour", "Sugar", "Butter"], "applepie"),
    Recipe(1, "Chicken Salad", ["Chicken", "Lettuce", "Tomato"], "chickensalad"),
    Recipe(2, "Banana Smoothie", ["Banana", "Milk", "Honey"], "bananasmoothie")
  ]

  /** `foodItems.contains { $0.name.lowercased() == ingredient.lowercased() }`. */
  function HasItemNamed(foodItems: seq<FoodItem>, ingredient: string): (b: bool)
    ensures b <==> exists x :: x in foodItems && Lower(x.name) == Lower(ingredient)
    decreases |foodItems|
  {
    if foodItems == [] then false
    else
      assert foodItems == [foodItems[0]] + foodItems[1..];
      Lower(foodItems[0].name) == Lower(ingredient) || HasItemNamed(foodItems[1..], ingredient)
  }

  /** `recipe.ingredients.allSatisfy { ... }`: true for a recipe without
      ingredients. */
  function AllAvailable(ingredients: seq<string>, foodItems: seq<FoodItem>): (b: bool)
    ensures b <==> forall i :: 0 <= i < |ingredients| ==> HasItemNamed(foodItems, ingredients[i])
    decreases |ingredients|
  {
    if ingredients == [] then true
    else HasItemNamed(foodItems, ingredients[0]) && AllAvailable(ingredients[1..], foodItems)
  }

  /** Recipes all of whose ingredients are in stock. */
  function CanCook(foodItems: seq<FoodItem>): Recipe -> bool
  {
    (r: Recipe) => AllAvailable(r.ingredients, foodItems)
  }

  /** `filteredRecipes()`: the recipes whose every ingredient is in stock,
      with no partial matches and no fallback list. */
  function FilteredRecipes(recipes: seq<Recipe>, foodItems: seq<FoodItem>): (r: seq<Recipe>)
    ensures forall x :: x in r <==>
      x in recipes && forall i :: 0 <= i < |x.ingredients| ==> HasItemNamed(foodItems, x.ingredients[i])
  {
    FilterMembers(recipes, CanCook(foodItems));
    Filter(recipes, CanCook(foodItems))
  }

  /** Recommended recipes keep their order in the recipe list. */
  lemma FilteredRecipesKeepsOrder(recipes: seq<Recipe>, foodItems: seq<FoodItem>)
    ensures IsSubsequence(FilteredRecipes(recipes, foodItems), recipes)
  {
    FilterIsSubsequence(recipes, CanCook(foodItems));
  }

  /** A recipe without ingredients is always recommended, even with an empty
      inventory. */
  lemma NoIngredientsAlwaysKept(recipes: seq<Recipe>, foodItems: seq<FoodItem>, r: Recipe)
    requires r in recipes && r.ingredients == []
    ensures r in FilteredRecipes(recipes, foodItems)
  {
  }

  /** Stocking more food never takes a recommendation away: with a larger
      inventory the old recommendations are still there, in the same order. */
  lemma MoreFoodKeepsRecipes(recipes: seq<Recipe>, foodItems: seq<FoodItem>, more: seq<FoodItem>)
    requires forall x :: x in foodItems ==> x in more
    ensures IsSubsequence(FilteredRecipes(recipes, foodItems), FilteredRecipes(recipes, more))
  {
    forall r | r in recipes && CanCook(foodItems)(r)
      ensures CanCook(more)(r)
    {
      forall i | 0 <= i < |r.ingredients|
        ensures HasItemNamed(more, r.ingredients[i])
      {
        assert HasItemNamed(foodItems, r.ingredients[i]);
      }
    }
    FilterMonotone(recipes, CanCook(foodItems), CanCook(more));
  }

  /** When no recipe can be cooked the list is empty; it never falls back to
      showing every recipe. */
  lemma NoFallback(recipes: seq<Recipe>, foodItems: seq<FoodItem>)
    requires forall r :: r in recipes ==> exists i :: 0 <= i < |r.ingredients| && !HasItemNamed(foodItems, r.ingredients[i])
    ensures FilteredRecipes(recipes, foodItems) == []
  {
    FilterNone(recipes, CanCook(foodItems));
  }

  /** With only apples in stock none of the shipped recipes is recommended:
      the apple pie also needs flour, and nothing replaces a missing
      ingredient. */
  lemma ApplesAloneCookNothing(apple: FoodItem)
    requires apple.name == "Apple"
    ensures FilteredRecipes(SampleRecipes, [apple]) == []
  {
    assert Lower(apple.name)[0] == 'a';
    assert Lower("Flour")[0] == 'f';
    assert !HasItemNamed([apple], SampleRecipes[0].ingredients[1]);
    assert |Lower("Chicken")| != |Lower(apple.name)|;
    assert !HasItemNamed([apple], SampleRecipes[1].ingredients[0]);
    assert |Lower("Banana")| != |Lower(apple.name)|;
    assert !HasItemNamed([apple], SampleRecipes[2].ingredients[0]);
    NoFallback(SampleRecipes, [apple]);
  }
}
