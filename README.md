# TandemFit, modelled in Dafny

TandemFit is a fitness app for two partners. They log workouts, which raise their streaks, and plan meals for the week. They also follow shared challenges and ask an AI for workout plans and recipes. This project models four parts of the app:

- the server's store (`server/storage.ts`), as a class with one sequence per table;
- the request handlers that validate, write and combine store calls (`server/routes.ts`);
- the record shapes and column defaults (`shared/schema.ts`);
- the rules the client components compute: unit conversions and the profile form, dashboard counts and progress bars, restriction toggling and recipe tags, the meal-plan grid, the activity filter and log payload, and challenge progress.

Modules, bottom-up:

- `Wrappers`: `Option` and `Field`, where `Field` says whether a defaulted column was given or left out.
- `Js`: the JavaScript semantics the code relies on.
  - `Math.round` of a rational, exact: `RoundDiv`.
  - `%` truncates: `JsRem`.
  - `parseInt`, with `None` standing for NaN; `String(n)`; `trim`.
  - Truthiness of numbers.
  - A JSON value type, for request bodies.
- `Seqs`: `filter`, `slice(0, n)`, summing with `reduce`, and the ordering `orderBy` gives.
- `Schema`: per table, the stored record, the insert shape and the defaults that fill it in, plus the partial-update shapes.
- `Table`: rows with a primary key.
  - Lookup by id, `update ... where`, `update ... returning`, `delete ... where`.
  - The invariant that keys are unique and were handed out by the store's counter.
- `Storage`: the class `Store`, one method per query of `DatabaseStorage`. `Valid()` is the key invariant.
- `Routes`: the zod validation of the bodies that are parsed, and the handlers for:
  - `POST /api/workout-logs`;
  - `PATCH /api/challenges/:id`;
  - `PATCH /api/meal-plans/:id`;
  - `POST /api/meal-plans`;
  - `POST /api/messages`.
- `WorkoutGenerator`, `Dashboard`, `MealGenerator`, `MealsTab`, `ActivitiesTab`, `ChallengesTab`: the client components' logic.

Modelling choices:

- **Numbers are exact rationals.**
  - 2.54 is 127/50 and 2.20462 is 110231/50000.
  - `Math.round(p / q)` for `q > 0` is `(2p + q) div 2q`: the integer `r` with `2qr <= 2p + q < 2qr + 2q`.
- **Ids.** The store hands out ids from a counter `nextId` (key `n` is the decimal text of `n`). This stands in for `gen_random_uuid()`. `Valid()` says every table's keys are distinct and were all issued below `nextId`, so a new key never collides.
- **Time** is local milliseconds with a fixed UTC offset.
  - `Midnight(t)` is `t - t % 86400000`.
  - `Weekday(t)` counts from 1 January 1970, a Thursday, with 0 meaning Sunday.
  - These are concrete functions rather than abstract ones, so that properties such as "the start of the week is the latest Sunday midnight at or before now" can be proved.
- **Request bodies** are records of `JsonValue`.
  - A field can be absent, `null`, a boolean, a whole number, a fractional number, a string, or something composite.
  - Timestamp columns validate as `z.date()`, which JSON cannot carry. So a body that includes `loggedAt` or `createdAt` fails validation, and leaving the field out gives the current time, passed in as `now`.
- **Partial updates.**
  - A field left out of a patch keeps its column.
  - A patch with nothing to set makes the database layer throw, so the handler returns 500. This is `Outcome.DbError` in the store and `ServerError` in the handler.
- **The meal-plan upsert** is `CreateMealPlan`.
  - It rewrites every plan for the day: the new `mealId`, with `completed` reset to false.
  - It returns the first such plan.
  - If the day has no plan, it inserts one row.
  - It is the only thing that keeps days unique (`OnePlanPerDay`). An unvalidated `PATCH /api/meal-plans/:id` that sets `dayOfWeek` can break this, so `UpdateMealPlan` preserves the invariant only when the patch leaves the day alone.

The code keeps no effort score and settles no weekly winner: `workoutLogs` has no score column and there is no results table. A log only adds one to its partner's streak.

## Model

| member | source | states |
|---|---|---|
| Js.RoundDiv | client/src/components/ai-workout-generator.tsx:18-33 | `Math.round(p/q)` for q > 0: the unique r with 2qr ≤ 2p+q < 2qr+2q (round half up) |
| Js.RoundDivUnique | client/src/components/ai-workout-generator.tsx:18-33 | any r inside those bounds is the rounded value |
| Js.RoundDivMonotone | client/src/components/ai-workout-generator.tsx:23-25 | rounding a larger quotient never gives a smaller integer |
| Js.JsRem | client/src/components/ai-workout-generator.tsx:20 | `%` takes the sign of the dividend: in [0, b) for a ≥ 0, in (-b, 0] for a < 0 |
| Js.Trim | client/src/components/dashboard-tab.tsx:55-57 | `trim()` is never longer than its input and neither starts nor ends with white space: ECMAScript's WhiteSpace and LineTerminator characters, every Unicode space separator included |
| Js.TrimEmptyIff | client/src/components/dashboard-tab.tsx:55-57 | `trim()` is empty exactly when every character is white space; otherwise it neither starts nor ends with white space |
| Js.UnicodeSpaceSeparators | client/src/components/dashboard-tab.tsx:56 | U+1680, U+2000 to U+200A, U+202F, U+205F and U+3000 count as white space for `trim` and `parseInt` |
| Js.IntToString | client/src/components/ai-workout-generator.tsx:145-148 | `String(i)` is non-empty, starts with '-' exactly for a negative i, and has only digits after its first character |
| Js.ParseInt | client/src/components/ai-workout-generator.tsx:158-161 | `parseInt` is a number exactly when, after leading white space, a digit comes first or a sign then a digit. All-white-space text is NaN. A negative result needs a leading '-' |
| Js.ParseIntSkipsUnicodeSpace | client/src/components/ai-workout-generator.tsx:158-161 | any white space character, Unicode space separators included, before `String(i)` still reads as i |
| Js.ParseIntOfIntToString | client/src/components/ai-workout-generator.tsx:158-161 | `parseInt` reads back `String(i)` followed by any non-digit text as i |
| Js.ParseIntRoundTrip | client/src/components/ai-workout-generator.tsx:145-148 | `parseInt(String(i)) == i` for every integer i |
| Seqs.Filter | client/src/components/dashboard-tab.tsx:24-28 | `filter` keeps exactly the elements satisfying p, all taken from s, never more than |s| |
| Seqs.FilterMultiset | client/src/components/activities-tab.tsx:42 | an element satisfying p is kept as many times as it occurs; others are dropped |
| Seqs.FilterAppend | client/src/components/activities-tab.tsx:42 | filtering a concatenation concatenates the filtered parts (order is kept) |
| Seqs.FilterWeaker | client/src/components/dashboard-tab.tsx:24-42 | a filter with a weaker predicate keeps at least as many elements |
| Seqs.FilterKeepsAll | client/src/components/ai-meal-generator.tsx:161 | a filter that rejects nothing returns the list unchanged |
| Seqs.FilterNone | client/src/components/dashboard-tab.tsx:24-28 | a filter that rejects everything returns the empty list |
| Seqs.FilterDistinct | client/src/components/ai-meal-generator.tsx:161 | filtering a duplicate-free list gives a duplicate-free list |
| Seqs.Take | client/src/components/dashboard-tab.tsx:64 | `slice(0, n)` is a prefix of length min(n, |s|) |
| Seqs.SumByAppend | client/src/components/dashboard-tab.tsx:36-42 | the `reduce` sum of a concatenation is the sum of the parts |
| Seqs.InsertByKey | server/storage.ts:80-82 | one insertion step of the ordering adds exactly one element |
| Seqs.InsertByKeyMultiset | server/storage.ts:80-82 | that step adds x and keeps every other element |
| Seqs.InsertByKeySorted | server/storage.ts:80-82 | that step keeps a sorted list sorted |
| Seqs.SortBy | server/storage.ts:80-82 | `orderBy` returns a sorted permutation of the rows |
| Schema.PartnerFromInsert | shared/schema.ts:6-18 | an inserted partner keeps the given fields. Left-out columns get color "blue", weeklyGoal 5, calorieGoal 2000, streak 0, fitnessLevel "intermediate" and goal "general fitness". Age, height and weight are nullable with no default |
| Schema.NewPartnerDefaults | shared/schema.ts:9-17 | a partner inserted with only a name has exactly those defaults |
| Schema.StreakPatch | server/storage.ts:75-78 | `set({ streak })` is never an empty update |
| Schema.ApplyPartnerPatch | server/storage.ts:170-173 | each of the ten columns takes the given field's value, or keeps its old value when the field is left out; an empty patch changes nothing |
| Schema.StreakPatchOnlyStreak | server/storage.ts:75-78 | the streak update changes the streak and nothing else |
| Schema.AiWorkoutPlanFromInsert | shared/schema.ts:20-30 | an inserted AI workout plan keeps partnerId, planName, exercises, totalDuration, totalCalories, difficulty and focusArea; createdAt defaults to now |
| Schema.WorkoutLogFromInsert | shared/schema.ts:32-39 | an inserted log keeps partnerId, activityName, the integer duration and caloriesBurned; loggedAt defaults to now |
| Schema.ActivityFromInsert | shared/schema.ts:41-49 | an inserted activity gets type "Together", difficulty "Medium" and icon "Dumbbell" when left out |
| Schema.ApplyActivityPatch | server/storage.ts:98-101 | each of the six columns takes the given field's value, or keeps its old value when the field is left out; an empty patch changes nothing |
| Schema.MealFromInsert | shared/schema.ts:51-59 | an inserted meal gets tags [], difficulty "Easy" and icon "Utensils" when left out |
| Schema.MealPlanFromInsert | shared/schema.ts:61-66 | an inserted plan has the given day, a nullable mealId (null when left out) and completed false unless given |
| Schema.ApplyMealPlanPatch | server/storage.ts:133-136 | mealId, dayOfWeek and completed each take the given field's value, or keep their old value when the field is left out; an empty patch changes nothing |
| Schema.ChallengeFromInsert | shared/schema.ts:68-77 | an inserted challenge gets progress 0, goal 100, rewardIcon "Trophy" and active true when left out |
| Schema.BadgeFromInsert | shared/schema.ts:79-86 | an inserted badge gets icon "Award", earnedAt now and weekNumber 1 when left out |
| Schema.MessageFromInsert | shared/schema.ts:88-93 | an inserted message keeps its nullable sender; createdAt defaults to now |
| Table.IdForFresh | shared/schema.ts:7 | in a well-keyed table the next key differs from every stored key, and it was not issued earlier |
| Table.InsertWellKeyed | server/storage.ts:70-73 | inserting a row with the next key keeps keys unique and issued |
| Table.WellKeyedLater | server/storage.ts:70-73 | moving the key counter on keeps every table well keyed |
| Table.FirstIndex | server/storage.ts:65-68 | the position of the first row satisfying p, or none exactly when no row does |
| Table.FindFirst | server/storage.ts:65-68 | the first row a query returns: none exactly when no row matches, otherwise a stored matching row |
| Table.FindById | server/storage.ts:65-68 | `where(eq(id))`: none exactly when no row has the id, otherwise a stored row with it |
| Table.FindByIdUnique | server/storage.ts:65-68 | with unique keys, lookup by id returns the only row holding that id |
| Table.UpdateWhere | server/storage.ts:75-78 | `update ... where p`: the same positions and keys, with exactly the matching rows rewritten |
| Table.UpdateWellKeyed | server/storage.ts:75-78 | an update keeps the table well keyed |
| Table.UpdatedFirst | server/storage.ts:75-78 | `returning()`'s first row: none exactly when nothing matched, otherwise a rewritten matching row now in the table |
| Table.DeleteWhere | server/storage.ts:103-105 | `delete ... where p` keeps exactly the rows not matching p |
| Table.DeleteWhereNone | server/storage.ts:103-105 | a delete that matches nothing leaves the table as it was |
| Table.FilterUniqueIds | server/storage.ts:103-105 | removing rows keeps keys unique |
| Table.DeleteWellKeyed | server/storage.ts:103-105 | a delete keeps the table well keyed |
| Storage.UpsertFields | server/storage.ts:123-124 | the upsert's update sets the new mealId (a left-out one keeps the old) and completed false, keeping the day |
| Storage.UpsertExisting | server/storage.ts:121-127 | when the day has a plan, the upsert returns a stored plan for that day and keeps one plan per day |
| Storage.InsertNewDay | server/storage.ts:129-130 | inserting a plan for a day without one keeps one plan per day |
| Storage.Store.constructor | server/storage.ts:60 | a new store has empty tables and is valid |
| Storage.Store.GetPartners | server/storage.ts:61-63 | all partners, in table order (insertion order, see Left out) |
| Storage.Store.GetPartner | server/storage.ts:65-68 | undefined exactly when no partner has the id, otherwise that partner |
| Storage.Store.CreatePartner | server/storage.ts:70-73 | exactly one row with a fresh key and the defaulted fields is appended and returned; no other table changes |
| Storage.Store.UpdatePartnerStreak | server/storage.ts:75-78 | the partner with the id gets the streak, nothing else changes; undefined exactly when no partner has the id |
| Storage.Store.UpdatePartner | server/storage.ts:170-173 | the patch is applied to the partner with the id; undefined on an unknown id; an empty patch fails without writing |
| Storage.Store.GetWorkoutLogs | server/storage.ts:80-82 | all logs, newest first |
| Storage.Store.CreateWorkoutLog | server/storage.ts:84-87 | exactly one log with a fresh key is appended and returned |
| Storage.Store.GetActivities | server/storage.ts:89-91 | all activities, in table order (insertion order, see Left out) |
| Storage.Store.CreateActivity | server/storage.ts:93-96 | exactly one activity with a fresh key is appended and returned |
| Storage.Store.UpdateActivity | server/storage.ts:98-101 | the patch is applied to the activity with the id; undefined on an unknown id; an empty patch fails without writing |
| Storage.Store.DeleteActivity | server/storage.ts:103-105 | exactly the activities with the id are removed, the others keep their order; an unknown id changes nothing |
| Storage.Store.GetMeals | server/storage.ts:107-109 | all meals, in table order (insertion order, see Left out) |
| Storage.Store.CreateMeal | server/storage.ts:111-114 | exactly one meal with a fresh key is appended and returned |
| Storage.Store.GetMealPlans | server/storage.ts:116-118 | all meal plans, in table order (insertion order, see Left out) |
| Storage.Store.CreateMealPlan | server/storage.ts:120-131 | the upsert. With a plan for the day, every such plan gets the new mealId and completed false, no row is inserted and a plan for the day is returned. Otherwise exactly one row is inserted. One plan per day is preserved |
| Storage.Store.UpdateMealPlan | server/storage.ts:133-136 | the patch is applied to the plan with the id. Undefined exactly when no plan has it. An empty patch fails without writing. One plan per day is preserved when the patch leaves the day alone |
| Storage.Store.GetChallenges | server/storage.ts:138-140 | all challenges, in table order (insertion order, see Left out) |
| Storage.Store.CreateChallenge | server/storage.ts:142-145 | exactly one challenge with a fresh key is appended and returned |
| Storage.Store.UpdateChallengeProgress | server/storage.ts:147-150 | the challenge with the id gets the progress, with no range check; undefined exactly when no challenge has the id |
| Storage.Store.GetBadges | server/storage.ts:152-154 | all badges, ascending weekNumber |
| Storage.Store.CreateBadge | server/storage.ts:156-159 | exactly one badge with a fresh key is appended and returned |
| Storage.Store.GetMessages | server/storage.ts:161-163 | all messages, newest first |
| Storage.Store.CreateMessage | server/storage.ts:165-168 | exactly one message with a fresh key is appended and returned |
| Storage.Store.GetAiWorkoutPlans | server/storage.ts:175-177 | exactly that partner's plans, each as often as stored, newest first |
| Storage.Store.CreateAiWorkoutPlan | server/storage.ts:179-182 | exactly one plan with a fresh key is appended and returned |
| Storage.Store.DeleteAiWorkoutPlan | server/storage.ts:184-187 | true exactly when a plan with the id existed; afterwards none does and every other plan remains, in order |
| Storage.Store.GetAiMealPlans | server/storage.ts:189-191 | all AI recipes, newest first |
| Storage.Store.CreateAiMealPlan | server/storage.ts:193-196 | exactly one recipe with a fresh key is appended and returned |
| Storage.Store.DeleteAiMealPlan | server/storage.ts:198-200 | exactly the recipes with the id are removed, the others keep their order; an unknown id changes nothing |
| Routes.RequiredText | shared/schema.ts:95-103 | a required text column accepts exactly a string |
| Routes.RequiredInt | shared/schema.ts:95-103 | a required integer column accepts exactly a whole number |
| Routes.ValidateWorkoutLog | server/routes.ts:140 | a log body validates exactly when partnerId and activityName are strings, duration and caloriesBurned are whole numbers, and loggedAt is left out |
| Routes.OptionalNullableText | shared/schema.ts:63 | a nullable column with no default accepts absence, null or a string, and tells them apart |
| Routes.OptionalBool | shared/schema.ts:65 | a defaulted boolean accepts absence or a boolean |
| Routes.ValidateMealPlan | server/routes.ts:54 | a plan body validates exactly when mealId is absent, null or text, dayOfWeek is a whole number, and completed is absent or a boolean |
| Routes.NullableText | shared/schema.ts:91 | the nullable sender accepts absence, null or a string |
| Routes.ValidateMessage | server/routes.ts:118 | a message body validates exactly when the message is text, the sender is absent, null or text, and createdAt is left out |
| Routes.PostWorkoutLog | server/routes.ts:138-155 | an invalid body gets 400 and writes nothing. Otherwise one log is appended and returned, and only a partner with that id gets streak + 1 (an unknown partner still gets the log). No other table changes |
| Routes.PostWorkoutLogTwice | server/routes.ts:141-146 | two valid logs for a known partner add 2 to the streak and 2 log rows, whatever their dates |
| Routes.PatchChallenge | server/routes.ts:84-96 | only the challenges table may change. Missing or non-number progress gets 400 with no write. A fraction fails at the integer column (500) with no write. A whole number is written, with no range check, to the challenge with the id; 404 and no write exactly when there is none |
| Routes.PatchMealPlan | server/routes.ts:65-73 | only the meal-plan table may change. An empty patch gets 500 with no write. Otherwise the patch is applied to exactly the plans with the id: 404 exactly when there is none, else the patched plan |
| Routes.PostMealPlan | server/routes.ts:52-63 | only the meal-plan table and the id counter may change. An invalid body gets 400 with no write. A valid one, for a day with a plan, rewrites every plan of that day with the body's mealId (a left-out one keeps the old) and completed false, using no new id. For a day without one, it appends and returns the body's plan under a fresh id. One plan per day holds |
| Routes.PostMessage | server/routes.ts:116-127 | only the messages table and the id counter may change. An invalid body gets 400 with no write. A valid one appends and returns exactly one message, stamped now, under a fresh id |
| WorkoutGenerator.TotalInches | client/src/components/ai-workout-generator.tsx:19 | `Math.round(cm / 2.54)` is within half an inch of cm |
| WorkoutGenerator.CmToFeetInches | client/src/components/ai-workout-generator.tsx:18-21 | for cm ≥ 0, feet ≥ 0 and 0 ≤ inches < 12, and together they are the rounded total inches |
| WorkoutGenerator.FeetInchesToCm | client/src/components/ai-workout-generator.tsx:23-25 | the result is within half a centimetre of the height's exact metric value |
| WorkoutGenerator.FeetInchesToCmMonotone | client/src/components/ai-workout-generator.tsx:23-25 | a taller height never converts to fewer centimetres; equal total inches give equal centimetres |
| WorkoutGenerator.KgToLbs | client/src/components/ai-workout-generator.tsx:27-29 | within half a pound of kg × 2.20462; 0 maps to 0 |
| WorkoutGenerator.LbsToKg | client/src/components/ai-workout-generator.tsx:31-33 | within half a kilogram of lbs / 2.20462; 0 maps to 0 |
| WorkoutGenerator.KgLbsRoundTrip | client/src/components/ai-workout-generator.tsx:27-33 | converting kilograms to pounds and back returns the same kilograms, for every integer |
| WorkoutGenerator.HeightRoundTrip | client/src/components/ai-workout-generator.tsx:18-25 | centimetres to feet and inches and back lands within 1 cm |
| WorkoutGenerator.HeightRoundTripLoses | client/src/components/ai-workout-generator.tsx:18-25 | the round trip is not exact: 171 cm is 5'7", which converts back to 170 cm |
| WorkoutGenerator.FormatHeight | client/src/components/ai-workout-generator.tsx:35-38 | the height text ends with `"` and parseInt reads the converted feet from it |
| WorkoutGenerator.FormatHeightReadsBack | client/src/components/ai-workout-generator.tsx:35-38 | the displayed `feet'inches"` text parses back (parseInt before and after the apostrophe) to the converted feet and inches |
| WorkoutGenerator.FeetInchesTextReadsBack | client/src/components/ai-workout-generator.tsx:37 | `${feet}'${inches}"` parses back to both numbers |
| WorkoutGenerator.TextOr | client/src/components/ai-workout-generator.tsx:149-150 | `v \|\| default`: the value when it is a non-empty string, otherwise the default |
| WorkoutGenerator.Prefill | client/src/components/ai-workout-generator.tsx:143-151 | the form shows age as text or "". Height and weight are blank unless truthy. A truthy height shows the feet and inches of its conversion, and weight is shown in pounds. Fitness level and goal fall back to their defaults |
| WorkoutGenerator.OpenProfile | client/src/components/ai-workout-generator.tsx:141-154 | the dialog opens exactly when a partner has the selected id, prefilled from that partner |
| WorkoutGenerator.NumberOrZero | client/src/components/ai-workout-generator.tsx:158-159 | an empty field counts as 0; otherwise it is parseInt |
| WorkoutGenerator.NumberOrNull | client/src/components/ai-workout-generator.tsx:165 | an empty field is null; otherwise it is parseInt |
| WorkoutGenerator.HeightFromForm | client/src/components/ai-workout-generator.tsx:158-160 | height is null unless feet or inches is truthy; otherwise it is the converted centimetres |
| WorkoutGenerator.WeightFromForm | client/src/components/ai-workout-generator.tsx:161 | weight is null for an empty or unparsable field; otherwise it is pounds converted to kilograms |
| WorkoutGenerator.SaveProfile | client/src/components/ai-workout-generator.tsx:156-172 | nothing is sent without a selected partner; otherwise the body carries the parsed age, height and weight and the text fields |
| WorkoutGenerator.SaveUneditedProfile | client/src/components/ai-workout-generator.tsx:141-172 | saving an unedited profile keeps age and fitness level, keeps weight (0 becomes null) and keeps height within 1 cm, or null when it was not truthy |
| WorkoutGenerator.HandleGenerate | client/src/components/ai-workout-generator.tsx:136-139 | a generate request goes out exactly when a partner and a focus area are chosen |
| Dashboard.Midnight | client/src/components/dashboard-tab.tsx:33-34 | `setHours(0,0,0,0)`: a midnight at or before t, less than a day before |
| Dashboard.Weekday | client/src/components/dashboard-tab.tsx:21 | `getDay()` is in 0..6 |
| Dashboard.StartOfWeek | client/src/components/dashboard-tab.tsx:19-22 | the week's start is a whole number of days, at most six, before today's midnight |
| Dashboard.StartOfWeekIsLastSunday | client/src/components/dashboard-tab.tsx:19-22 | the week's start is a Sunday midnight at or before today's midnight and now, less than 7 days back, and the latest such |
| Dashboard.WeeklyCompletedCount | client/src/components/dashboard-tab.tsx:18-29 | the weekly count never exceeds the number of logs |
| Dashboard.TodayCalories | client/src/components/dashboard-tab.tsx:31-43 | today's calories are 0 when the partner has no log since today's midnight, and never negative when no log has negative calories |
| Dashboard.WeeklyCountsLog | client/src/components/dashboard-tab.tsx:24-28 | a partner's log counts toward the week exactly when it is at or after the week's start; one stamped after now counts toward the week and today |
| Dashboard.OtherPartnersIgnored | client/src/components/dashboard-tab.tsx:24-42 | adding another partner's logs anywhere changes neither the weekly count nor today's calories |
| Dashboard.TodayWithinWeek | client/src/components/dashboard-tab.tsx:18-43 | every log counted for today's calories is counted for the week |
| Dashboard.ClampedPercent | client/src/components/dashboard-tab.tsx:90-97 | the bar is at most 100 and, for a positive goal and non-negative value, a number from 0. A goal of 0 gives 100, NaN or -Infinity |
| Dashboard.DoneIff | client/src/components/dashboard-tab.tsx:90-93 | with a positive goal, "(Done!)" shows exactly when 200x ≥ 199·goal |
| Dashboard.DoneIffGoalMet | client/src/components/dashboard-tab.tsx:90-93 | for a weekly goal below 200, "(Done!)" shows exactly when the goal is met |
| Dashboard.CalorieBarFullEarly | client/src/components/dashboard-tab.tsx:94-97 | 1995 of 2000 calories already fills the bar |
| Dashboard.BannerStreak | client/src/components/dashboard-tab.tsx:62-63 | the banner streak is the largest partner streak, one of them, or 0 with no partners |
| Dashboard.ActiveChallenges | client/src/components/dashboard-tab.tsx:64 | at most two challenges, all active, the first min(2, n) active ones in order |
| Dashboard.ActiveChallengesFirstTwo | client/src/components/dashboard-tab.tsx:64 | once two active challenges appear, later challenges do not change the preview |
| Dashboard.HandleSend | client/src/components/dashboard-tab.tsx:55-60 | a note is sent exactly when the text is not all white space; what is sent is the trimmed text, and the input is cleared only then |
| Dashboard.UnicodeSpacesAreBlank | client/src/components/dashboard-tab.tsx:55-57 | a note of only ideographic or em spaces is blank: nothing is sent and the input stays |
| MealGenerator.ToggleRestriction | client/src/components/ai-meal-generator.tsx:159-163 | r is selected afterwards exactly when it was not before; an added r goes at the end; the other elements keep their order |
| MealGenerator.ToggleTwice | client/src/components/ai-meal-generator.tsx:159-163 | toggling an unselected restriction twice restores the list |
| MealGenerator.ToggleKeepsDistinct | client/src/components/ai-meal-generator.tsx:159-163 | toggling keeps the selection free of duplicates |
| MealGenerator.HandleGenerate | client/src/components/ai-meal-generator.tsx:149-157 | a request goes out exactly when cuisine and calorie range are chosen, with portions parsed by parseInt |
| MealGenerator.PortionsAreIntegers | client/src/components/ai-meal-generator.tsx:26 | every portion option, and the initial "2", is sent as its whole number |
| MealGenerator.RecipeTags | client/src/components/ai-meal-generator.tsx:376 | the cuisine followed by the first two restrictions: 1 to 3 tags |
| MealGenerator.SaveShownRecipe | client/src/components/ai-meal-generator.tsx:369-381 | the stored meal has the recipe's name, prep time and difficulty, calories per serving, the ChefHat icon, and tags from the form |
| MealGenerator.SavePastRecipe | client/src/components/ai-meal-generator.tsx:431-442 | the same for a past recipe, tagged with its stored cuisine and restrictions (`\|\| []` when null) |
| MealGenerator.ViewPastRecipe | client/src/components/ai-meal-generator.tsx:165-180 | an opened past recipe keeps its id and calories per serving |
| MealGenerator.ViewedRecipeTaggedFromForm | client/src/components/ai-meal-generator.tsx:369-381 | saving an opened past recipe with the main button gives the card's meal exactly when the form's tags equal the stored ones |
| MealGenerator.AddToMeals | client/src/components/ai-meal-generator.tsx:119-138 | one meal is added. Only after a successful post, and only for a non-empty recipe id, that AI recipe is deleted. A failed post changes nothing |
| MealsTab.MealIcon | client/src/components/meals-tab.tsx:13-19 | an icon from the map, falling back to Utensils exactly for unknown names |
| MealsTab.MealForDay | client/src/components/meals-tab.tsx:45-50 | null when no plan is for the day, or the first plan for the day has a null or empty mealId. Otherwise that first plan, with the meal of that id, or undefined exactly when no meal has it |
| MealsTab.MealForDayOnlyPlan | client/src/components/meals-tab.tsx:45-50 | with one plan per day, a day with a meal shows its only plan |
| MealsTab.DayClick | client/src/components/meals-tab.tsx:127-131 | a planned day requests its plan's id with completion flipped; any other day requests nothing |
| MealsTab.DayClickFlips | client/src/components/meals-tab.tsx:127-131 | after that patch the day shows the same plan and meal with completion flipped, and a second click flips it back |
| MealsTab.HandlePlan | client/src/components/meals-tab.tsx:35-43 | nothing happens unless a meal and a day are selected. Otherwise the meal's id and the parsed day are sent and both selections are cleared |
| MealsTab.DayOptionsRequestTheirIndex | client/src/components/meals-tab.tsx:171-175 | picking day option i requests day i, and index 0 is "Mon" |
| ActivitiesTab.ActivityIcon | client/src/components/activities-tab.tsx:14-21 | an icon from the map, falling back to Dumbbell exactly for unknown names |
| ActivitiesTab.Shown | client/src/components/activities-tab.tsx:40-42 | "all" shows every activity; any other filter shows exactly the activities of that type |
| ActivitiesTab.ShownKeepsOrder | client/src/components/activities-tab.tsx:42 | the shown activities keep the list's order and multiplicity |
| ActivitiesTab.NumberJson | client/src/components/activities-tab.tsx:49 | a number goes into JSON as itself, NaN as null |
| ActivitiesTab.HandleLog | client/src/components/activities-tab.tsx:44-54 | nothing is logged unless an activity and a partner are selected. Otherwise the payload copies partner, name and calories, with duration as parseInt of the duration text, and both selections are cleared |
| ActivitiesTab.LoggedPayloadValidates | client/src/components/activities-tab.tsx:46-51 | the server accepts the payload exactly when the duration text starts with a number, and stores those fields |
| ActivitiesTab.DurationTextParses | client/src/components/activities-tab.tsx:49 | "45 min" is logged as 45 |
| ChallengesTab.BadgeIcon | client/src/components/challenges-tab.tsx:7-13 | an icon from the map, falling back to Award exactly for unknown names |
| ChallengesTab.NextProgress | client/src/components/challenges-tab.tsx:64 | the requested progress is at most 100 and at most 10 more |
| ChallengesTab.ProgressClick | client/src/components/challenges-tab.tsx:57-73 | the button exists exactly while progress < goal and requests min(progress + 10, 100) for that challenge |
| ChallengesTab.NextProgressMonotone | client/src/components/challenges-tab.tsx:64 | up to 100 a click never lowers progress, and below 100 it raises it |
| ChallengesTab.NextProgressLowersAboveHundred | client/src/components/challenges-tab.tsx:64 | progress above 100 is pulled back to 100 |
| ChallengesTab.ClicksReach | client/src/components/challenges-tab.tsx:64 | from at most 100, n clicks reach min(progress + 10n, 100) |
| ChallengesTab.TenClicksComplete | client/src/components/challenges-tab.tsx:64 | a goal of at most 100 is met after ten clicks from a non-negative start |
| ChallengesTab.GoalAboveHundredNeverCompletes | client/src/components/challenges-tab.tsx:64 | a goal above 100 is never met by clicking |

## Left out

- Effort scores and a weekly winner: the code has neither (no score column, no results table).
- GET routes other than those the handlers call: they pass store results through unchanged, and the store methods are modelled.
- The AI generation endpoints and the route registrations for `POST`, `PATCH` and `DELETE /api/activities`, `PATCH /api/partners/:id`, `POST /api/meals` and the AI-plan deletes: the client calls them, but `server/routes.ts` does not contain them. The activity store methods are modelled. The client's add-to-meals and profile-save sequences are modelled against the store methods they reach.
- JSON parsing of stored exercises, ingredients and steps when opening a past plan or recipe, and its failure toast. The stored text is carried as an opaque string.
- The `aiMealPlans` table definition: `shared/schema.ts` does not contain it. Its columns are taken from what `server/storage.ts` and the recipe page read.
- A meal's `cookTime`, `ingredients` and `steps`: the client sends them, but the meals table has no such columns, so they are not part of `InsertMeal`.
- Floating point: conversions and percentages are exact rationals, rounded half up. IEEE-754 results at exact .5 ties may differ.
- Daylight-saving time: local time is a fixed offset from UTC.
- Postgres `integer` range: integers are unbounded, so the 32-bit range of integer columns is not checked.
- Row order: the SELECTs in `server/storage.ts` that have no ORDER BY are modelled as returning rows in insertion order, and an update keeps a row's position. Postgres guarantees neither, and an UPDATE usually moves the row. So Dashboard.ActiveChallengesFirstTwo, the dashboard's first-two challenge preview, holds only under this order. The same goes for MealsTab.MealForDay's first plan found, which is harmless because there is one plan per day.
- Dashboard.ActiveChallengesFirstTwo: holds for the insertion order above; the database may return challenges in another order after a `PATCH /api/challenges/:id`.
- Concurrency: `createMealPlan`'s select-then-update and the log-then-streak write are non-atomic; both are modelled as sequential.
- `parseInt` of a `0x` prefix and `Math.round` of negative numbers: the form fields only hold decimal text and non-negative measurements.
- Routes.PatchMealPlan: the body is taken as a typed meal-plan patch. A wrongly typed value, or an `id` key in the body, which the unvalidated handler would pass to the database, is not modelled.
- Routes.ValidateWorkoutLog: integer columns are taken to reject fractional numbers, as a `z.number().int()` check would. A body that is not a JSON object is not modelled.
- MealsTab.MealIcon: an icon name that is a property of `Object.prototype` (such as `toString`) is looked up in the map in the source; the model treats it as unknown. The same holds for ActivitiesTab.ActivityIcon and ChallengesTab.BadgeIcon.
- React state, rendering, toasts, query invalidation, the seed script and the static prototype page: UI wiring and startup I/O with no logic of their own.
