/** client/src/components/ai-meal-generator.tsx: the recipe form, the tags a saved recipe
    gets, and saving a recipe into the meal collection. */
module MealGenerator {
  import opened Wrappers
  import opened Js
  import opened Schema
  import opened Seqs
  import opened Table
  import Storage

  // ------------------------------------------------------------ restrictions

  function NotEqual(r: string): string -> bool
  {
    (x: string) => x != r
  }

  /** toggleRestriction: drop every copy of r when it is selected, otherwise add it at the end. */
  function ToggleRestriction(prev: seq<string>, r: string): (next: seq<string>)
    ensures r in next <==> r !in prev
    ensures r !in prev ==> next == prev + [r]
    ensures Filter(next, NotEqual(r)) == Filter(prev, NotEqual(r))
  {
    if r in prev then
      FilterKeepsAll(Filter(prev, NotEqual(r)), NotEqual(r));
      Filter(prev, NotEqual(r))
    else
      FilterAppend(prev, [r], NotEqual(r));
      assert Filter([r], NotEqual(r)) == [];
      prev + [r]
  }

  /** Selecting a restriction and deselecting it again restores the list. */
  lemma ToggleTwice(prev: seq<string>, r: string)
    requires r !in prev
    ensures ToggleRestriction(ToggleRestriction(prev, r), r) == prev
  {
    FilterAppend(prev, [r], NotEqual(r));
    assert Filter([r], NotEqual(r)) == [];
    FilterKeepsAll(prev, NotEqual(r));
  }

  /** The selection never holds a restriction twice. */
  lemma ToggleKeepsDistinct(prev: seq<string>, r: string)
    requires Distinct(prev)
    ensures Distinct(ToggleRestriction(prev, r))
  {
    if r in prev {
      FilterDistinct(prev, NotEqual(r));
    }
  }

  // ------------------------------------------------------------- the request

  const PortionOptions: seq<string> := ["1", "2", "3", "4", "5", "6"]
  const InitialPortions: string := "2"

  datatype MealRequest = MealRequest(cuisine: string, portions: Option<int>, calorieRange: string, dietaryRestrictions: seq<string>)

  /** handleGenerate: a request goes out only when a cuisine and a calorie range are chosen,
      with the portions text parsed by parseInt. */
  function HandleGenerate(cuisine: string, portions: string, calorieRange: string, selected: seq<string>): (r: Option<MealRequest>)
    ensures r.Some? <==> cuisine != "" && calorieRange != ""
    ensures r.Some? ==> r.value.portions == ParseInt(portions) && r.value.dietaryRestrictions == selected
    ensures r.Some? ==> r.value.cuisine == cuisine && r.value.calorieRange == calorieRange
  {
    if cuisine == "" || calorieRange == "" then None
    else Some(MealRequest(cuisine, ParseInt(portions), calorieRange, selected))
  }

  /** Every portion the form offers, and its initial value, is sent as that whole number. */
  lemma PortionsAreIntegers()
    ensures forall i :: 0 <= i < |PortionOptions| ==> ParseInt(PortionOptions[i]) == Some(i + 1)
    ensures ParseInt(InitialPortions) == Some(2)
  {
    forall i | 0 <= i < |PortionOptions| ensures ParseInt(PortionOptions[i]) == Some(i + 1) {
      PortionIsDigit(i);
      ParseIntOfDigit(i + 1);
    }
    PortionIsDigit(1);
    ParseIntOfDigit(2);
  }

  /** Option i of the portion picker is the single digit i + 1. */
  lemma PortionIsDigit(i: nat)
    requires i < |PortionOptions|
    ensures PortionOptions[i] == [DigitChar(i + 1)]
  {
    if i == 0 {} else if i == 1 {} else if i == 2 {} else if i == 3 {} else if i == 4 {} else {}
  }

  // ------------------------------------------------------------- saved meals

  /** What the page holds of a recipe it shows: freshly generated, or a past one opened. */
  datatype ShownRecipe = ShownRecipe(
    recipeName: string,
    prepTime: string,
    cookTime: string,
    totalCalories: int,
    caloriesPerServing: int,
    difficulty: string,
    aiRecipeId: Option<Id>)

  const SavedMealIcon: string := "ChefHat"

  /** Tags of a saved recipe: the cuisine, then the first two restrictions when there are any. */
  function RecipeTags(cuisine: string, restrictions: seq<string>): (tags: seq<string>)
    ensures 1 <= |tags| <= 3 && tags[0] == cuisine
    ensures tags[1..] == Take(restrictions, 2) && tags[1..] <= restrictions
  {
    [cuisine] + (if |restrictions| > 0 then restrictions[..Min(2, |restrictions|)] else [])
  }

  /** The stored recipe's restrictions, `|| []` when the column is null. */
  function RestrictionsOf(plan: AiMealPlanFields): seq<string>
  {
    match plan.dietaryRestrictions
    case None => []
    case Some(rs) => rs
  }

  /** The meal body the page posts for the recipe it shows, tagged from the form. */
  function SaveShownRecipe(recipe: ShownRecipe, cuisine: string, selected: seq<string>): (m: InsertMeal)
    ensures var f := MealFromInsert(m);
      && f.calories == recipe.caloriesPerServing && f.name == recipe.recipeName
      && f.prepTime == recipe.prepTime && f.difficulty == recipe.difficulty
      && f.iconName == SavedMealIcon && f.tags == RecipeTags(cuisine, selected)
  {
    InsertMeal(recipe.recipeName, recipe.prepTime, recipe.caloriesPerServing,
               Given([cuisine] + (if |selected| > 0 then selected[..Min(2, |selected|)] else [])),
               Given(recipe.difficulty), Given(SavedMealIcon))
  }

  /** The meal body the past-recipe card's add button posts, tagged from the stored recipe. */
  function SavePastRecipe(plan: AiMealPlan): (m: InsertMeal)
    ensures var f := MealFromInsert(m);
      && f.calories == plan.data.caloriesPerServing && f.name == plan.data.recipeName
      && f.prepTime == plan.data.prepTime && f.difficulty == plan.data.difficulty
      && f.iconName == SavedMealIcon && f.tags == RecipeTags(plan.data.cuisine, RestrictionsOf(plan.data))
  {
    InsertMeal(plan.data.recipeName, plan.data.prepTime, plan.data.caloriesPerServing,
               Given([plan.data.cuisine] + Take(RestrictionsOf(plan.data), 2)),
               Given(plan.data.difficulty), Given(SavedMealIcon))
  }

  /** viewPastRecipe: the past recipe shown on the page, keeping its id. */
  function ViewPastRecipe(plan: AiMealPlan): (r: ShownRecipe)
    ensures r.aiRecipeId == Some(plan.id) && r.caloriesPerServing == plan.data.caloriesPerServing
  {
    ShownRecipe(plan.data.recipeName, plan.data.prepTime, plan.data.cookTime, plan.data.totalCalories,
                plan.data.caloriesPerServing, plan.data.difficulty, Some(plan.id))
  }

  /** Saving an opened past recipe from the main button and from its card give the same
      meal exactly when the form's cuisine and restrictions tag it as the stored ones do. */
  lemma ViewedRecipeTaggedFromForm(plan: AiMealPlan, cuisine: string, selected: seq<string>)
    ensures SaveShownRecipe(ViewPastRecipe(plan), cuisine, selected) == SavePastRecipe(plan)
        <==> RecipeTags(cuisine, selected) == RecipeTags(plan.data.cuisine, RestrictionsOf(plan.data))
  {
    var a, b := SaveShownRecipe(ViewPastRecipe(plan), cuisine, selected), SavePastRecipe(plan);
    if a == b {
      assert MealFromInsert(a).tags == MealFromInsert(b).tags;
    }
  }

  /** The add-to-meals mutation: post the meal, and only when that succeeds and the recipe
      has a non-empty id, delete the AI recipe. A failed post (`postFails`) changes nothing. */
  method AddToMeals(s: Storage.Store, meal: InsertMeal, aiRecipeId: Option<Id>, postFails: bool) returns (created: Option<Meal>)
    requires s.Valid()
    modifies s`meals, s`nextId, s`aiMealPlans
    ensures s.Valid()
    ensures postFails ==> created.None? && s.meals == old(s.meals) && s.nextId == old(s.nextId)
    ensures !postFails ==> created.Some? && created.value.data == MealFromInsert(meal)
    ensures !postFails ==> s.meals == old(s.meals) + [created.value]
    ensures !postFails && aiRecipeId.Some? && aiRecipeId.value != "" ==>
      forall x :: x in s.aiMealPlans <==> x in old(s.aiMealPlans) && x.id != aiRecipeId.value
    ensures postFails || aiRecipeId.None? || aiRecipeId.value == "" ==> s.aiMealPlans == old(s.aiMealPlans)
  {
    if postFails {
      return None;
    }
    var m := s.CreateMeal(meal);
    created := Some(m);
    if aiRecipeId.Some? && aiRecipeId.value != "" {
      s.DeleteAiMealPlan(aiRecipeId.value);
    }
  }
}
