/** The tables of shared/schema.ts as record types. Every table has a string primary key
    generated by the store, so a stored record is a `Row` holding that id beside the
    table's other columns; the insert shape of a table is the record without its id, with
    `Field`s for the columns that have a default. A nullable column is an `Option`.
    Timestamps are integers (milliseconds of local time). */
module Schema {
  import opened Wrappers

  type Id = string

  /** A stored record: the generated primary key and the other columns. */
  datatype Row<T> = Row(id: Id, data: T)

  // ------------------------------------------------------------------ partners

  const DefaultColor := "blue"
  const DefaultWeeklyGoal := 5
  const DefaultCalorieGoal := 2000
  const DefaultStreak := 0
  const DefaultFitnessLevel := "intermediate"
  const DefaultGoal := "general fitness"

  datatype PartnerFields = PartnerFields(
    name: string,
    color: string,
    weeklyGoal: int,
    calorieGoal: int,
    streak: int,
    age: Option<int>,
    heightCm: Option<int>,
    weightKg: Option<int>,
    fitnessLevel: Option<string>,
    goal: Option<string>)

  type Partner = Row<PartnerFields>

  /** The insert shape of a partner. A nullable column without a default is simply null
      when left out; a nullable column with a default can be left out (default) or given
      an explicit null. */
  datatype InsertPartner = InsertPartner(
    name: string,
    color: Field<string>,
    weeklyGoal: Field<int>,
    calorieGoal: Field<int>,
    streak: Field<int>,
    age: Option<int>,
    heightCm: Option<int>,
    weightKg: Option<int>,
    fitnessLevel: Field<Option<string>>,
    goal: Field<Option<string>>)

  /** The partner record a database insert stores: given fields as given, omitted ones at
      their column default. */
  function PartnerFromInsert(p: InsertPartner): (r: PartnerFields)
    ensures r.name == p.name && r.age == p.age && r.heightCm == p.heightCm && r.weightKg == p.weightKg
    ensures r.color == (if p.color.Omitted? then DefaultColor else p.color.value)
    ensures r.weeklyGoal == (if p.weeklyGoal.Omitted? then DefaultWeeklyGoal else p.weeklyGoal.value)
    ensures r.calorieGoal == (if p.calorieGoal.Omitted? then DefaultCalorieGoal else p.calorieGoal.value)
    ensures r.streak == (if p.streak.Omitted? then DefaultStreak else p.streak.value)
    ensures r.fitnessLevel == (if p.fitnessLevel.Omitted? then Some(DefaultFitnessLevel) else p.fitnessLevel.value)
    ensures r.goal == (if p.goal.Omitted? then Some(DefaultGoal) else p.goal.value)
  {
    PartnerFields(
      p.name,
      FieldOr(p.color, DefaultColor),
      FieldOr(p.weeklyGoal, DefaultWeeklyGoal),
      FieldOr(p.calorieGoal, DefaultCalorieGoal),
      FieldOr(p.streak, DefaultStreak),
      p.age, p.heightCm, p.weightKg,
      FieldOr(p.fitnessLevel, Some(DefaultFitnessLevel)),
      FieldOr(p.goal, Some(DefaultGoal)))
  }

  /** A partner inserted with a name only. */
  lemma NewPartnerDefaults(name: string)
    ensures PartnerFromInsert(InsertPartner(name, Omitted, Omitted, Omitted, Omitted, None, None, None, Omitted, Omitted))
         == PartnerFields(name, "blue", 5, 2000, 0, None, None, None, Some("intermediate"), Some("general fitness"))
  {
  }

  /** `Partial<InsertPartner>`: the body of an update; omitted fields are not touched. */
  datatype PartnerPatch = PartnerPatch(
    name: Field<string>,
    color: Field<string>,
    weeklyGoal: Field<int>,
    calorieGoal: Field<int>,
    streak: Field<int>,
    age: Field<Option<int>>,
    heightCm: Field<Option<int>>,
    weightKg: Field<Option<int>>,
    fitnessLevel: Field<Option<string>>,
    goal: Field<Option<string>>)
  {
    /** Nothing to set. */
    predicate IsEmpty()
    {
      name.Omitted? && color.Omitted? && weeklyGoal.Omitted? && calorieGoal.Omitted? && streak.Omitted?
      && age.Omitted? && heightCm.Omitted? && weightKg.Omitted? && fitnessLevel.Omitted? && goal.Omitted?
    }
  }

  /** A patch that sets the streak and nothing else (updatePartnerStreak). */
  function StreakPatch(streak: int): (p: PartnerPatch)
    ensures !p.IsEmpty()
  {
    PartnerPatch(Omitted, Omitted, Omitted, Omitted, Given(streak), Omitted, Omitted, Omitted, Omitted, Omitted)
  }

  /** The record after `set(patch)`. */
  function ApplyPartnerPatch(d: PartnerFields, p: PartnerPatch): (r: PartnerFields)
    ensures Sets(p.name, d.name, r.name) && Sets(p.color, d.color, r.color)
    ensures Sets(p.weeklyGoal, d.weeklyGoal, r.weeklyGoal) && Sets(p.calorieGoal, d.calorieGoal, r.calorieGoal)
    ensures Sets(p.streak, d.streak, r.streak) && Sets(p.age, d.age, r.age)
    ensures Sets(p.heightCm, d.heightCm, r.heightCm) && Sets(p.weightKg, d.weightKg, r.weightKg)
    ensures Sets(p.fitnessLevel, d.fitnessLevel, r.fitnessLevel) && Sets(p.goal, d.goal, r.goal)
    ensures p.IsEmpty() ==> r == d
  {
    PartnerFields(
      FieldOr(p.name, d.name),
      FieldOr(p.color, d.color),
      FieldOr(p.weeklyGoal, d.weeklyGoal),
      FieldOr(p.calorieGoal, d.calorieGoal),
      FieldOr(p.streak, d.streak),
      FieldOr(p.age, d.age),
      FieldOr(p.heightCm, d.heightCm),
      FieldOr(p.weightKg, d.weightKg),
      FieldOr(p.fitnessLevel, d.fitnessLevel),
      FieldOr(p.goal, d.goal))
  }

  /** Setting the streak changes the streak and no other column. */
  lemma StreakPatchOnlyStreak(d: PartnerFields, streak: int)
    ensures ApplyPartnerPatch(d, StreakPatch(streak)) == d.(streak := streak)
  {
  }

  // --------------------------------------------------------- AI workout plans

  datatype AiWorkoutPlanFields = AiWorkoutPlanFields(
    partnerId: Id,
    planName: string,
    exercises: string,
    totalDuration: string,
    totalCalories: int,
    difficulty: string,
    focusArea: string,
    createdAt: int)

  type AiWorkoutPlan = Row<AiWorkoutPlanFields>

  datatype InsertAiWorkoutPlan = InsertAiWorkoutPlan(
    partnerId: Id,
    planName: string,
    exercises: string,
    totalDuration: string,
    totalCalories: int,
    difficulty: string,
    focusArea: string,
    createdAt: Field<int>)

  function AiWorkoutPlanFromInsert(p: InsertAiWorkoutPlan, now: int): (r: AiWorkoutPlanFields)
    ensures r.partnerId == p.partnerId && r.planName == p.planName && r.totalCalories == p.totalCalories
    ensures r.exercises == p.exercises && r.totalDuration == p.totalDuration
    ensures r.difficulty == p.difficulty && r.focusArea == p.focusArea
    ensures r.createdAt == (if p.createdAt.Omitted? then now else p.createdAt.value)
  {
    AiWorkoutPlanFields(p.partnerId, p.planName, p.exercises, p.totalDuration, p.totalCalories,
                        p.difficulty, p.focusArea, FieldOr(p.createdAt, now))
  }

  // -------------------------------------------------------------- workout logs

  datatype WorkoutLogFields = WorkoutLogFields(
    partnerId: Id,
    activityName: string,
    duration: int,
    caloriesBurned: int,
    loggedAt: int)

  type WorkoutLog = Row<WorkoutLogFields>

  datatype InsertWorkoutLog = InsertWorkoutLog(
    partnerId: Id,
    activityName: string,
    duration: int,
    caloriesBurned: int,
    loggedAt: Field<int>)

  /** loggedAt defaults to the moment of the insert. */
  function WorkoutLogFromInsert(p: InsertWorkoutLog, now: int): (r: WorkoutLogFields)
    ensures r.partnerId == p.partnerId && r.activityName == p.activityName
    ensures r.duration == p.duration && r.caloriesBurned == p.caloriesBurned
    ensures r.loggedAt == (if p.loggedAt.Omitted? then now else p.loggedAt.value)
  {
    WorkoutLogFields(p.partnerId, p.activityName, p.duration, p.caloriesBurned, FieldOr(p.loggedAt, now))
  }

  // ---------------------------------------------------------------- activities

  const DefaultActivityType := "Together"
  const DefaultActivityDifficulty := "Medium"
  const DefaultActivityIcon := "Dumbbell"

  /** `activityType` is the column `type`. */
  datatype ActivityFields = ActivityFields(
    name: string,
    activityType: string,
    duration: string,
    calories: int,
    difficulty: string,
    iconName: string)

  type Activity = Row<ActivityFields>

  datatype InsertActivity = InsertActivity(
    name: string,
    activityType: Field<string>,
    duration: string,
    calories: int,
    difficulty: Field<string>,
    iconName: Field<string>)

  function ActivityFromInsert(p: InsertActivity): (r: ActivityFields)
    ensures r.name == p.name && r.duration == p.duration && r.calories == p.calories
    ensures r.activityType == (if p.activityType.Omitted? then DefaultActivityType else p.activityType.value)
    ensures r.difficulty == (if p.difficulty.Omitted? then DefaultActivityDifficulty else p.difficulty.value)
    ensures r.iconName == (if p.iconName.Omitted? then DefaultActivityIcon else p.iconName.value)
  {
    ActivityFields(p.name, FieldOr(p.activityType, DefaultActivityType), p.duration, p.calories,
                   FieldOr(p.difficulty, DefaultActivityDifficulty), FieldOr(p.iconName, DefaultActivityIcon))
  }

  datatype ActivityPatch = ActivityPatch(
    name: Field<string>,
    activityType: Field<string>,
    duration: Field<string>,
    calories: Field<int>,
    difficulty: Field<string>,
    iconName: Field<string>)
  {
    predicate IsEmpty()
    {
      name.Omitted? && activityType.Omitted? && duration.Omitted? && calories.Omitted?
      && difficulty.Omitted? && iconName.Omitted?
    }
  }

  function ApplyActivityPatch(d: ActivityFields, p: ActivityPatch): (r: ActivityFields)
    ensures Sets(p.name, d.name, r.name) && Sets(p.activityType, d.activityType, r.activityType)
    ensures Sets(p.duration, d.duration, r.duration) && Sets(p.calories, d.calories, r.calories)
    ensures Sets(p.difficulty, d.difficulty, r.difficulty) && Sets(p.iconName, d.iconName, r.iconName)
    ensures p.IsEmpty() ==> r == d
  {
    ActivityFields(FieldOr(p.name, d.name), FieldOr(p.activityType, d.activityType),
                   FieldOr(p.duration, d.duration), FieldOr(p.calories, d.calories),
                   FieldOr(p.difficulty, d.difficulty), FieldOr(p.iconName, d.iconName))
  }

  // --------------------------------------------------------------------- meals

  const DefaultMealDifficulty := "Easy"
  const DefaultMealIcon := "Utensils"

  datatype MealFields = MealFields(
    name: string,
    prepTime: string,
    calories: int,
    tags: seq<string>,
    difficulty: string,
    iconName: string)

  type Meal = Row<MealFields>

  datatype InsertMeal = InsertMeal(
    name: string,
    prepTime: string,
    calories: int,
    tags: Field<seq<string>>,
    difficulty: Field<string>,
    iconName: Field<string>)

  function MealFromInsert(p: InsertMeal): (r: MealFields)
    ensures r.name == p.name && r.prepTime == p.prepTime && r.calories == p.calories
    ensures r.tags == (if p.tags.Omitted? then [] else p.tags.value)
    ensures r.difficulty == (if p.difficulty.Omitted? then DefaultMealDifficulty else p.difficulty.value)
    ensures r.iconName == (if p.iconName.Omitted? then DefaultMealIcon else p.iconName.value)
  {
    MealFields(p.name, p.prepTime, p.calories, FieldOr(p.tags, []),
               FieldOr(p.difficulty, DefaultMealDifficulty), FieldOr(p.iconName, DefaultMealIcon))
  }

  // ---------------------------------------------------------------- meal plans

  /** dayOfWeek carries no uniqueness constraint in the table. */
  datatype MealPlanFields = MealPlanFields(mealId: Option<Id>, dayOfWeek: int, completed: bool)

  type MealPlan = Row<MealPlanFields>

  /** mealId is nullable and optional: left out, it is null on insert and untouched on the
      upsert's update; given, it may be an explicit null. */
  datatype InsertMealPlan = InsertMealPlan(mealId: Field<Option<Id>>, dayOfWeek: int, completed: Field<bool>)

  function MealPlanFromInsert(p: InsertMealPlan): (r: MealPlanFields)
    ensures r.dayOfWeek == p.dayOfWeek
    ensures r.mealId == (if p.mealId.Omitted? then None else p.mealId.value)
    ensures r.completed == (p.completed.Given? && p.completed.value)
  {
    MealPlanFields(FieldOr(p.mealId, None), p.dayOfWeek, FieldOr(p.completed, false))
  }

  datatype MealPlanPatch = MealPlanPatch(mealId: Field<Option<Id>>, dayOfWeek: Field<int>, completed: Field<bool>)
  {
    predicate IsEmpty()
    {
      mealId.Omitted? && dayOfWeek.Omitted? && completed.Omitted?
    }
  }

  function ApplyMealPlanPatch(d: MealPlanFields, p: MealPlanPatch): (r: MealPlanFields)
    ensures Sets(p.mealId, d.mealId, r.mealId) && Sets(p.dayOfWeek, d.dayOfWeek, r.dayOfWeek)
    ensures Sets(p.completed, d.completed, r.completed)
    ensures p.IsEmpty() ==> r == d
  {
    MealPlanFields(FieldOr(p.mealId, d.mealId), FieldOr(p.dayOfWeek, d.dayOfWeek), FieldOr(p.completed, d.completed))
  }

  // ---------------------------------------------------------------- challenges

  const DefaultProgress := 0
  const DefaultChallengeGoal := 100
  const DefaultRewardIcon := "Trophy"

  datatype ChallengeFields = ChallengeFields(
    name: string,
    description: string,
    progress: int,
    goal: int,
    reward: string,
    rewardIcon: string,
    active: bool)

  type Challenge = Row<ChallengeFields>

  datatype InsertChallenge = InsertChallenge(
    name: string,
    description: string,
    progress: Field<int>,
    goal: Field<int>,
    reward: string,
    rewardIcon: Field<string>,
    active: Field<bool>)

  function ChallengeFromInsert(p: InsertChallenge): (r: ChallengeFields)
    ensures r.name == p.name && r.description == p.description && r.reward == p.reward
    ensures r.progress == (if p.progress.Omitted? then DefaultProgress else p.progress.value)
    ensures r.goal == (if p.goal.Omitted? then DefaultChallengeGoal else p.goal.value)
    ensures r.rewardIcon == (if p.rewardIcon.Omitted? then DefaultRewardIcon else p.rewardIcon.value)
    ensures r.active == (p.active.Omitted? || p.active.value)
  {
    ChallengeFields(p.name, p.description, FieldOr(p.progress, DefaultProgress), FieldOr(p.goal, DefaultChallengeGoal),
                    p.reward, FieldOr(p.rewardIcon, DefaultRewardIcon), FieldOr(p.active, true))
  }

  // -------------------------------------------------------------------- badges

  const DefaultBadgeIcon := "Award"
  const DefaultWeekNumber := 1

  datatype BadgeFields = BadgeFields(
    name: string,
    description: string,
    iconName: string,
    earnedAt: int,
    weekNumber: int)

  type Badge = Row<BadgeFields>

  datatype InsertBadge = InsertBadge(
    name: string,
    description: string,
    iconName: Field<string>,
    earnedAt: Field<int>,
    weekNumber: Field<int>)

  function BadgeFromInsert(p: InsertBadge, now: int): (r: BadgeFields)
    ensures r.name == p.name && r.description == p.description
    ensures r.iconName == (if p.iconName.Omitted? then DefaultBadgeIcon else p.iconName.value)
    ensures r.earnedAt == (if p.earnedAt.Omitted? then now else p.earnedAt.value)
    ensures r.weekNumber == (if p.weekNumber.Omitted? then DefaultWeekNumber else p.weekNumber.value)
  {
    BadgeFields(p.name, p.description, FieldOr(p.iconName, DefaultBadgeIcon), FieldOr(p.earnedAt, now),
                FieldOr(p.weekNumber, DefaultWeekNumber))
  }

  // ------------------------------------------------------- motivation messages

  datatype MessageFields = MessageFields(message: string, fromPartner: Option<string>, createdAt: int)

  type MotivationMessage = Row<MessageFields>

  datatype InsertMessage = InsertMessage(message: string, fromPartner: Option<string>, createdAt: Field<int>)

  function MessageFromInsert(p: InsertMessage, now: int): (r: MessageFields)
    ensures r.message == p.message && r.fromPartner == p.fromPartner
    ensures r.createdAt == (if p.createdAt.Omitted? then now else p.createdAt.value)
  {
    MessageFields(p.message, p.fromPartner, FieldOr(p.createdAt, now))
  }

  // ------------------------------------------------------------ AI meal plans

  /** The stored AI recipe, with the columns the client reads from it. */
  datatype AiMealPlanFields = AiMealPlanFields(
    recipeName: string,
    cuisine: string,
    portions: int,
    calorieRange: string,
    dietaryRestrictions: Option<seq<string>>,
    prepTime: string,
    cookTime: string,
    totalCalories: int,
    caloriesPerServing: int,
    difficulty: string,
    ingredients: string,
    steps: string,
    createdAt: int)

  type AiMealPlan = Row<AiMealPlanFields>
}
