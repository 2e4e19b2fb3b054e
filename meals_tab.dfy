/** client/src/components/meals-tab.tsx: the week's meal plan grid, the completion toggle
    and the "plan a meal" dialog. */
module MealsTab {
  import opened Wrappers
  import opened Js
  import opened Schema
  import opened Table
  import opened Storage

  /** The grid's columns; index 0 is Monday here, unlike getDay's 0 for Sunday. */
  const Days: seq<string> := ["Mon", "Tue", "Wed", "Thu", "Fri", "Sat", "Sun"]

  const MealIcons: seq<string> := ["Salad", "Fish", "Soup", "Cookie", "Egg", "Sandwich", "Utensils", "ChefHat"]
  const FallbackMealIcon: string := "Utensils"

  /** getMealIcon: a known icon name is used as is; anything else falls back to Utensils. */
  function MealIcon(name: string): (icon: string)
    ensures icon in MealIcons
    ensures name in MealIcons <==> icon == name
  {
    if name in MealIcons then name else FallbackMealIcon
  }

  /** `!plan.mealId`: a plan names a meal when its mealId is neither null nor empty. */
  predicate NamesMeal(plan: MealPlan)
  {
    plan.data.mealId.Some? && plan.data.mealId.value != ""
  }

  /** What the grid shows for a planned day: the plan, and its meal when the meal list has it. */
  datatype Planned = Planned(plan: MealPlan, meal: Option<Meal>)

  /** getMealForDay: the first plan for the day, when it names a meal, with that meal. */
  function MealForDay(meals: seq<Meal>, plans: seq<MealPlan>, day: int): (r: Option<Planned>)
    ensures (forall i :: 0 <= i < |plans| ==> plans[i].data.dayOfWeek != day) ==> r.None?
    ensures forall k ::
      (0 <= k < |plans| && plans[k].data.dayOfWeek == day && (forall j :: 0 <= j < k ==> plans[j].data.dayOfWeek != day)) ==>
      (r.None? <==> !NamesMeal(plans[k])) && (r.Some? ==> r.value.plan == plans[k])
    ensures r.Some? ==> r.value.plan in plans && r.value.plan.data.dayOfWeek == day && NamesMeal(r.value.plan)
    ensures r.Some? ==> (r.value.meal.None? <==> forall i :: 0 <= i < |meals| ==> meals[i].id != r.value.plan.data.mealId.value)
    ensures r.Some? && r.value.meal.Some? ==> r.value.meal.value in meals && r.value.meal.value.id == r.value.plan.data.mealId.value
  {
    match FirstIndex(plans, SameDay(day))
    case None => None
    case Some(k) =>
      var plan := plans[k];
      if !NamesMeal(plan) then None
      else Some(Planned(plan, FindById(meals, plan.data.mealId.value)))
  }

  /** With one plan per day, which the upsert keeps, a day shows its only plan. */
  lemma MealForDayOnlyPlan(meals: seq<Meal>, plans: seq<MealPlan>, i: nat)
    requires OnePlanPerDay(plans) && i < |plans| && NamesMeal(plans[i])
    ensures MealForDay(meals, plans, plans[i].data.dayOfWeek) == Some(Planned(plans[i], FindById(meals, plans[i].data.mealId.value)))
  {
    var day := plans[i].data.dayOfWeek;
    assert forall j :: 0 <= j < i ==> plans[j].data.dayOfWeek != day;
  }

  // ------------------------------------------------------------ the toggle

  /** The PATCH a click on a planned day sends. */
  datatype CompletionRequest = CompletionRequest(planId: Id, completed: bool)

  function CompletionPatch(req: CompletionRequest): MealPlanPatch
  {
    MealPlanPatch(Omitted, Omitted, Given(req.completed))
  }

  /** A click on a day: a planned day asks to flip its plan's completion; any other day does nothing. */
  function DayClick(meals: seq<Meal>, plans: seq<MealPlan>, day: int): (r: Option<CompletionRequest>)
    ensures r.Some? <==> MealForDay(meals, plans, day).Some?
    ensures r.Some? ==> var plan := MealForDay(meals, plans, day).value.plan;
      r.value.planId == plan.id && r.value.completed != plan.data.completed
  {
    match MealForDay(meals, plans, day)
    case None => None
    case Some(planned) => Some(CompletionRequest(planned.plan.id, !planned.plan.data.completed))
  }

  lemma FirstIndexSamePattern<T>(a: seq<Row<T>>, b: seq<Row<T>>, p: Row<T> -> bool)
    requires |a| == |b| && forall i :: 0 <= i < |a| ==> p(a[i]) == p(b[i])
    ensures FirstIndex(a, p) == FirstIndex(b, p)
  {
  }

  /** After the store applies the click's patch by id, the day shows the same plan and meal
      with the completion flipped, and a second click asks to flip it back. */
  lemma DayClickFlips(meals: seq<Meal>, plans: seq<MealPlan>, after: seq<MealPlan>, day: int)
    requires DayClick(meals, plans, day).Some?
    requires var req := DayClick(meals, plans, day).value;
      |after| == |plans| && forall i :: 0 <= i < |plans| ==>
        after[i] == if plans[i].id == req.planId then Row(req.planId, ApplyMealPlanPatch(plans[i].data, CompletionPatch(req))) else plans[i]
    ensures var planned := MealForDay(meals, plans, day).value;
      var plan := planned.plan;
      && MealForDay(meals, after, day) == Some(Planned(Row(plan.id, plan.data.(completed := !plan.data.completed)), planned.meal))
      && DayClick(meals, after, day) == Some(CompletionRequest(plan.id, plan.data.completed))
  {
    var req := DayClick(meals, plans, day).value;
    assert forall i :: 0 <= i < |plans| ==> after[i].data.dayOfWeek == plans[i].data.dayOfWeek && after[i].id == plans[i].id;
    FirstIndexSamePattern(plans, after, SameDay(day));
    var k := FirstIndex(plans, SameDay(day)).value;
    assert after[k] == Row(plans[k].id, plans[k].data.(completed := !plans[k].data.completed));
  }

  // ------------------------------------------------------------ the dialog

  /** The dialog's selections: the meal clicked and the day picked (a day's index as text). */
  datatype PlanDialog = PlanDialog(selectedMeal: Option<Meal>, selectedDay: string)

  /** The POST /api/meal-plans body; parseInt's NaN is None. */
  datatype PlanRequest = PlanRequest(mealId: Id, dayOfWeek: Option<int>)

  datatype PlanResult = PlanResult(request: Option<PlanRequest>, dialog: PlanDialog)

  /** handlePlan: with a meal and a day selected, request that meal for the parsed day and
      clear both selections; otherwise do nothing. */
  function HandlePlan(dialog: PlanDialog): (r: PlanResult)
    ensures r.request.Some? <==> dialog.selectedMeal.Some? && dialog.selectedDay != ""
    ensures r.request.None? ==> r.dialog == dialog
    ensures r.request.Some? ==> r.dialog == PlanDialog(None, "")
    ensures r.request.Some? ==> r.request.value == PlanRequest(dialog.selectedMeal.value.id, ParseInt(dialog.selectedDay))
  {
    if dialog.selectedMeal.None? || dialog.selectedDay == "" then PlanResult(None, dialog)
    else PlanResult(Some(PlanRequest(dialog.selectedMeal.value.id, ParseInt(dialog.selectedDay))), PlanDialog(None, ""))
  }

  /** The day picker's options are String(index) of the grid's days, so picking a day
      requests exactly that column's index, and the first column is Monday. */
  lemma DayOptionsRequestTheirIndex(meal: Meal, i: nat)
    requires i < |Days|
    ensures HandlePlan(PlanDialog(Some(meal), IntToString(i))).request == Some(PlanRequest(meal.id, Some(i)))
    ensures Days[0] == "Mon" && Days[6] == "Sun"
  {
    assert IntToString(i) + [] == IntToString(i);
    ParseIntOfIntToString(i, []);
  }
}
