/** server/storage.ts: the store behind every request handler, with one table per field.
    Each method is one of the store's queries; the database becomes sequences of rows in
    insertion order, and the generated primary keys come from a counter. */
module Storage {
  import opened Wrappers
  import opened Schema
  import opened Table
  import Seqs

  /** A query either completes or the database layer throws (an update with nothing to
      set is rejected before it reaches the database). */
  datatype Outcome<T> = Ok(value: T) | DbError

  /** At most one meal plan per day of the week. The table does not enforce it; only
      CreateMealPlan's upsert keeps it. */
  ghost predicate OnePlanPerDay(plans: seq<MealPlan>)
  {
    forall i, j :: 0 <= i < j < |plans| ==> plans[i].data.dayOfWeek != plans[j].data.dayOfWeek
  }

  /** What the upsert's update writes into an existing plan for the day: the new mealId
      (an omitted mealId is left out of the update and keeps the old one) and
      completed := false. */
  function UpsertFields(d: MealPlanFields, p: InsertMealPlan): (r: MealPlanFields)
    ensures r.dayOfWeek == d.dayOfWeek && !r.completed
    ensures r.mealId == (if p.mealId.Given? then p.mealId.value else d.mealId)
  {
    MealPlanFields(FieldOr(p.mealId, d.mealId), d.dayOfWeek, false)
  }

  /** The upsert's `where(eq(mealPlans.dayOfWeek, day))`. */
  function SameDay(day: int): MealPlan -> bool
  {
    (x: MealPlan) => x.data.dayOfWeek == day
  }

  /** The upsert's `set(...)` as a function on a stored plan. */
  function Upsert(p: InsertMealPlan): MealPlanFields -> MealPlanFields
  {
    (d: MealPlanFields) => UpsertFields(d, p)
  }

  /** When the day already has a plan, the upsert gives back a stored plan for that day,
      and since it never changes a plan's day it keeps every day to one plan. */
  lemma UpsertExisting(plans: seq<MealPlan>, p: InsertMealPlan)
    requires exists i :: 0 <= i < |plans| && plans[i].data.dayOfWeek == p.dayOfWeek
    ensures UpdatedFirst(plans, SameDay(p.dayOfWeek), Upsert(p)).Some?
    ensures var r := UpdatedFirst(plans, SameDay(p.dayOfWeek), Upsert(p)).value;
      r in UpdateWhere(plans, SameDay(p.dayOfWeek), Upsert(p)) && r.data.dayOfWeek == p.dayOfWeek
    ensures OnePlanPerDay(plans) ==> OnePlanPerDay(UpdateWhere(plans, SameDay(p.dayOfWeek), Upsert(p)))
  {
    var u := UpdateWhere(plans, SameDay(p.dayOfWeek), Upsert(p));
    assert forall k :: 0 <= k < |u| ==> u[k].data.dayOfWeek == plans[k].data.dayOfWeek;
  }

  /** Inserting a plan for a day that has none keeps every day to one plan. */
  lemma InsertNewDay(plans: seq<MealPlan>, r: MealPlan)
    requires forall i :: 0 <= i < |plans| ==> plans[i].data.dayOfWeek != r.data.dayOfWeek
    ensures OnePlanPerDay(plans) ==> OnePlanPerDay(plans + [r])
  {
    var t := plans + [r];
    assert t[|plans|] == r;
    assert forall i :: 0 <= i < |plans| ==> t[i] == plans[i];
  }

  class Store {
    var partners: seq<Partner>
    var workoutLogs: seq<WorkoutLog>
    var activities: seq<Activity>
    var meals: seq<Meal>
    var mealPlans: seq<MealPlan>
    var challenges: seq<Challenge>
    var badges: seq<Badge>
    var messages: seq<MotivationMessage>
    var aiWorkoutPlans: seq<AiWorkoutPlan>
    var aiMealPlans: seq<AiMealPlan>
    /** How many keys the store has handed out. */
    var nextId: nat

    /** Every table has unique keys, all handed out before nextId. */
    ghost predicate Valid()
      reads this
    {
      && WellKeyed(partners, nextId)
      && WellKeyed(workoutLogs, nextId)
      && WellKeyed(activities, nextId)
      && WellKeyed(meals, nextId)
      && WellKeyed(mealPlans, nextId)
      && WellKeyed(challenges, nextId)
      && WellKeyed(badges, nextId)
      && WellKeyed(messages, nextId)
      && WellKeyed(aiWorkoutPlans, nextId)
      && WellKeyed(aiMealPlans, nextId)
    }

    constructor ()
      ensures Valid() && nextId == 0
      ensures partners == [] && workoutLogs == [] && activities == [] && meals == [] && mealPlans == []
      ensures challenges == [] && badges == [] && messages == [] && aiWorkoutPlans == [] && aiMealPlans == []
    {
      partners, workoutLogs, activities, meals, mealPlans := [], [], [], [], [];
      challenges, badges, messages, aiWorkoutPlans, aiMealPlans := [], [], [], [], [];
      nextId := 0;
    }

    // ------------------------------------------------------------- partners

    method GetPartners() returns (r: seq<Partner>)
      ensures r == partners
    {
      r := partners;
    }

    /** The partner with that id, or None when there is none. */
    method GetPartner(id: Id) returns (r: Option<Partner>)
      requires Valid()
      ensures r.None? <==> forall i :: 0 <= i < |partners| ==> partners[i].id != id
      ensures r.Some? ==> r.value in partners && r.value.id == id
      ensures forall i :: 0 <= i < |partners| && partners[i].id == id ==> r == Some(partners[i])
    {
      r := FindById(partners, id);
      forall i | 0 <= i < |partners| && partners[i].id == id ensures r == Some(partners[i]) {
        FindByIdUnique(partners, id, i);
      }
    }

    method CreatePartner(p: InsertPartner) returns (created: Partner)
      requires Valid()
      modifies this`partners, this`nextId
      ensures Valid() && nextId == old(nextId) + 1
      ensures created == Row(IdFor(old(nextId)), PartnerFromInsert(p))
      ensures forall i :: 0 <= i < |old(partners)| ==> old(partners)[i].id != created.id
      ensures partners == old(partners) + [created]
    {
      created := Row(IdFor(nextId), PartnerFromInsert(p));
      IdForFresh(partners, nextId);
      InsertWellKeyed(partners, nextId, created.data);
      partners := partners + [created];
      nextId := nextId + 1;
    }

    /** `update partners set streak where id`: that partner's streak and nothing else. */
    method UpdatePartnerStreak(id: Id, streak: int) returns (r: Option<Partner>)
      requires Valid()
      modifies this`partners
      ensures Valid()
      ensures |partners| == |old(partners)|
      ensures forall i :: 0 <= i < |partners| ==>
        partners[i] == if old(partners)[i].id == id then old(partners)[i].(data := old(partners)[i].data.(streak := streak))
                       else old(partners)[i]
      ensures r.None? <==> forall i :: 0 <= i < |old(partners)| ==> old(partners)[i].id != id
      ensures r.Some? ==> r.value in partners && r.value.id == id && r.value.data.streak == streak
    {
      var f := (d: PartnerFields) => ApplyPartnerPatch(d, StreakPatch(streak));
      var p := (x: Partner) => x.id == id;
      r := UpdatedFirst(partners, p, f);
      UpdateWellKeyed(partners, p, f, nextId);
      var updated := UpdateWhere(partners, p, f);
      partners := updated;
    }

    /** `update partners set patch where id`; a patch with nothing to set is an error and
        writes nothing. */
    method UpdatePartner(id: Id, patch: PartnerPatch) returns (r: Outcome<Option<Partner>>)
      requires Valid()
      modifies this`partners
      ensures Valid()
      ensures patch.IsEmpty() ==> r == DbError && partners == old(partners)
      ensures !patch.IsEmpty() ==> r.Ok? && |partners| == |old(partners)|
      ensures !patch.IsEmpty() ==> forall i :: 0 <= i < |partners| ==>
        partners[i] == if old(partners)[i].id == id then Row(id, ApplyPartnerPatch(old(partners)[i].data, patch))
                       else old(partners)[i]
      ensures r.Ok? ==> (r.value.None? <==> forall i :: 0 <= i < |old(partners)| ==> old(partners)[i].id != id)
      ensures r.Ok? && r.value.Some? ==> r.value.value in partners && r.value.value.id == id
    {
      if patch.IsEmpty() {
        return DbError;
      }
      var f := (d: PartnerFields) => ApplyPartnerPatch(d, patch);
      var p := (x: Partner) => x.id == id;
      var first := UpdatedFirst(partners, p, f);
      UpdateWellKeyed(partners, p, f, nextId);
      var updated := UpdateWhere(partners, p, f);
      partners := updated;
      r := Ok(first);
    }

    // --------------------------------------------------------- workout logs

    /** All logs, newest first. */
    method GetWorkoutLogs() returns (r: seq<WorkoutLog>)
      ensures multiset(r) == multiset(workoutLogs)
      ensures forall i, j :: 0 <= i < j < |r| ==> r[i].data.loggedAt >= r[j].data.loggedAt
    {
      var key := (x: WorkoutLog) => -x.data.loggedAt;
      r := Seqs.SortBy(workoutLogs, key);
      assert forall i, j :: 0 <= i < j < |r| ==> key(r[i]) <= key(r[j]);
    }

    method CreateWorkoutLog(p: InsertWorkoutLog, now: int) returns (created: WorkoutLog)
      requires Valid()
      modifies this`workoutLogs, this`nextId
      ensures Valid() && nextId == old(nextId) + 1
      ensures created == Row(IdFor(old(nextId)), WorkoutLogFromInsert(p, now))
      ensures forall i :: 0 <= i < |old(workoutLogs)| ==> old(workoutLogs)[i].id != created.id
      ensures workoutLogs == old(workoutLogs) + [created]
    {
      created := Row(IdFor(nextId), WorkoutLogFromInsert(p, now));
      IdForFresh(workoutLogs, nextId);
      InsertWellKeyed(workoutLogs, nextId, created.data);
      workoutLogs := workoutLogs + [created];
      nextId := nextId + 1;
    }

    // ----------------------------------------------------------- activities

    method GetActivities() returns (r: seq<Activity>)
      ensures r == activities
    {
      r := activities;
    }

    method CreateActivity(p: InsertActivity) returns (created: Activity)
      requires Valid()
      modifies this`activities, this`nextId
      ensures Valid() && nextId == old(nextId) + 1
      ensures created == Row(IdFor(old(nextId)), ActivityFromInsert(p))
      ensures forall i :: 0 <= i < |old(activities)| ==> old(activities)[i].id != created.id
      ensures activities == old(activities) + [created]
    {
      created := Row(IdFor(nextId), ActivityFromInsert(p));
      IdForFresh(activities, nextId);
      InsertWellKeyed(activities, nextId, created.data);
      activities := activities + [created];
      nextId := nextId + 1;
    }

    method UpdateActivity(id: Id, patch: ActivityPatch) returns (r: Outcome<Option<Activity>>)
      requires Valid()
      modifies this`activities
      ensures Valid()
      ensures patch.IsEmpty() ==> r == DbError && activities == old(activities)
      ensures !patch.IsEmpty() ==> r.Ok? && |activities| == |old(activities)|
      ensures !patch.IsEmpty() ==> forall i :: 0 <= i < |activities| ==>
        activities[i] == if old(activities)[i].id == id then Row(id, ApplyActivityPatch(old(activities)[i].data, patch))
                         else old(activities)[i]
      ensures r.Ok? ==> (r.value.None? <==> forall i :: 0 <= i < |old(activities)| ==> old(activities)[i].id != id)
      ensures r.Ok? && r.value.Some? ==> r.value.value in activities && r.value.value.id == id
    {
      if patch.IsEmpty() {
        return DbError;
      }
      var f := (d: ActivityFields) => ApplyActivityPatch(d, patch);
      var p := (x: Activity) => x.id == id;
      var first := UpdatedFirst(activities, p, f);
      UpdateWellKeyed(activities, p, f, nextId);
      var updated := UpdateWhere(activities, p, f);
      activities := updated;
      r := Ok(first);
    }

    /** `delete from activities where id`: removes that row and keeps the others in order;
        an unknown id changes nothing. */
    method DeleteActivity(id: Id)
      requires Valid()
      modifies this`activities
      ensures Valid()
      ensures forall x :: x in activities <==> x in old(activities) && x.id != id
      ensures activities == DeleteWhere(old(activities), (x: Activity) => x.id == id)
      ensures (forall i :: 0 <= i < |old(activities)| ==> old(activities)[i].id != id) ==> activities == old(activities)
    {
      var p := (x: Activity) => x.id == id;
      DeleteWellKeyed(activities, p, nextId);
      if forall i :: 0 <= i < |activities| ==> activities[i].id != id {
        DeleteWhereNone(activities, p);
      }
      activities := DeleteWhere(activities, p);
    }

    // ---------------------------------------------------------------- meals

    method GetMeals() returns (r: seq<Meal>)
      ensures r == meals
    {
      r := meals;
    }

    method CreateMeal(p: InsertMeal) returns (created: Meal)
      requires Valid()
      modifies this`meals, this`nextId
      ensures Valid() && nextId == old(nextId) + 1
      ensures created == Row(IdFor(old(nextId)), MealFromInsert(p))
      ensures forall i :: 0 <= i < |old(meals)| ==> old(meals)[i].id != created.id
      ensures meals == old(meals) + [created]
    {
      created := Row(IdFor(nextId), MealFromInsert(p));
      IdForFresh(meals, nextId);
      InsertWellKeyed(meals, nextId, created.data);
      meals := meals + [created];
      nextId := nextId + 1;
    }

    // ----------------------------------------------------------- meal plans

    method GetMealPlans() returns (r: seq<MealPlan>)
      ensures r == mealPlans
    {
      r := mealPlans;
    }

    /** The upsert keyed by day: when plans for the day exist, each gets the new mealId and
        completed := false and nothing is inserted; otherwise exactly one row is inserted. */
    method CreateMealPlan(p: InsertMealPlan) returns (r: MealPlan)
      requires Valid()
      modifies this`mealPlans, this`nextId
      ensures Valid()
      ensures r in mealPlans && r.data.dayOfWeek == p.dayOfWeek
      ensures (exists i :: 0 <= i < |old(mealPlans)| && old(mealPlans)[i].data.dayOfWeek == p.dayOfWeek) ==>
        && nextId == old(nextId)
        && |mealPlans| == |old(mealPlans)|
        && (forall i :: 0 <= i < |mealPlans| ==>
              mealPlans[i] == if old(mealPlans)[i].data.dayOfWeek == p.dayOfWeek
                              then Row(old(mealPlans)[i].id, UpsertFields(old(mealPlans)[i].data, p))
                              else old(mealPlans)[i])
      ensures (forall i :: 0 <= i < |old(mealPlans)| ==> old(mealPlans)[i].data.dayOfWeek != p.dayOfWeek) ==>
        && nextId == old(nextId) + 1
        && r == Row(IdFor(old(nextId)), MealPlanFromInsert(p))
        && mealPlans == old(mealPlans) + [r]
      ensures OnePlanPerDay(old(mealPlans)) ==> OnePlanPerDay(mealPlans)
    {
      var existing := FindFirst(mealPlans, SameDay(p.dayOfWeek));
      if existing.Some? {
        UpsertExisting(mealPlans, p);
        UpdateWellKeyed(mealPlans, SameDay(p.dayOfWeek), Upsert(p), nextId);
        r := UpdatedFirst(mealPlans, SameDay(p.dayOfWeek), Upsert(p)).value;
        mealPlans := UpdateWhere(mealPlans, SameDay(p.dayOfWeek), Upsert(p));
      } else {
        r := Row(IdFor(nextId), MealPlanFromInsert(p));
        InsertNewDay(mealPlans, r);
        InsertWellKeyed(mealPlans, nextId, r.data);
        mealPlans := mealPlans + [r];
        nextId := nextId + 1;
      }
    }

    /** `update meal_plans set patch where id`. The patch is not checked: one that sets
        dayOfWeek can give a day a second plan. */
    method UpdateMealPlan(id: Id, patch: MealPlanPatch) returns (r: Outcome<Option<MealPlan>>)
      requires Valid()
      modifies this`mealPlans
      ensures Valid()
      ensures patch.IsEmpty() ==> r == DbError && mealPlans == old(mealPlans)
      ensures !patch.IsEmpty() ==> r.Ok? && |mealPlans| == |old(mealPlans)|
      ensures !patch.IsEmpty() ==> forall i :: 0 <= i < |mealPlans| ==>
        mealPlans[i] == if old(mealPlans)[i].id == id then Row(id, ApplyMealPlanPatch(old(mealPlans)[i].data, patch))
                        else old(mealPlans)[i]
      ensures r.Ok? ==> (r.value.None? <==> forall i :: 0 <= i < |old(mealPlans)| ==> old(mealPlans)[i].id != id)
      ensures r.Ok? && r.value.Some? ==> r.value.value in mealPlans && r.value.value.id == id
      ensures patch.dayOfWeek.Omitted? && OnePlanPerDay(old(mealPlans)) ==> OnePlanPerDay(mealPlans)
    {
      if patch.IsEmpty() {
        return DbError;
      }
      var f := (d: MealPlanFields) => ApplyMealPlanPatch(d, patch);
      var p := (x: MealPlan) => x.id == id;
      var first := UpdatedFirst(mealPlans, p, f);
      UpdateWellKeyed(mealPlans, p, f, nextId);
      var updated := UpdateWhere(mealPlans, p, f);
      if patch.dayOfWeek.Omitted? {
        assert forall k :: 0 <= k < |updated| ==> updated[k].data.dayOfWeek == mealPlans[k].data.dayOfWeek;
      }
      mealPlans := updated;
      r := Ok(first);
    }

    // ----------------------------------------------------------- challenges

    method GetChallenges() returns (r: seq<Challenge>)
      ensures r == challenges
    {
      r := challenges;
    }

    method CreateChallenge(p: InsertChallenge) returns (created: Challenge)
      requires Valid()
      modifies this`challenges, this`nextId
      ensures Valid() && nextId == old(nextId) + 1
      ensures created == Row(IdFor(old(nextId)), ChallengeFromInsert(p))
      ensures forall i :: 0 <= i < |old(challenges)| ==> old(challenges)[i].id != created.id
      ensures challenges == old(challenges) + [created]
    {
      created := Row(IdFor(nextId), ChallengeFromInsert(p));
      IdForFresh(challenges, nextId);
      InsertWellKeyed(challenges, nextId, created.data);
      challenges := challenges + [created];
      nextId := nextId + 1;
    }

    /** `update challenges set progress where id`: no range check on progress. */
    method UpdateChallengeProgress(id: Id, progress: int) returns (r: Option<Challenge>)
      requires Valid()
      modifies this`challenges
      ensures Valid()
      ensures |challenges| == |old(challenges)|
      ensures forall i :: 0 <= i < |challenges| ==>
        challenges[i] == if old(challenges)[i].id == id then old(challenges)[i].(data := old(challenges)[i].data.(progress := progress))
                         else old(challenges)[i]
      ensures r.None? <==> forall i :: 0 <= i < |old(challenges)| ==> old(challenges)[i].id != id
      ensures r.Some? ==> r.value in challenges && r.value.id == id && r.value.data.progress == progress
    {
      var f := (d: ChallengeFields) => d.(progress := progress);
      var p := (x: Challenge) => x.id == id;
      r := UpdatedFirst(challenges, p, f);
      UpdateWellKeyed(challenges, p, f, nextId);
      var updated := UpdateWhere(challenges, p, f);
      challenges := updated;
    }

    // --------------------------------------------------------------- badges

    /** All badges in ascending week number. */
    method GetBadges() returns (r: seq<Badge>)
      ensures multiset(r) == multiset(badges)
      ensures forall i, j :: 0 <= i < j < |r| ==> r[i].data.weekNumber <= r[j].data.weekNumber
    {
      var key := (x: Badge) => x.data.weekNumber;
      r := Seqs.SortBy(badges, key);
      assert forall i, j :: 0 <= i < j < |r| ==> key(r[i]) <= key(r[j]);
    }

    method CreateBadge(p: InsertBadge, now: int) returns (created: Badge)
      requires Valid()
      modifies this`badges, this`nextId
      ensures Valid() && nextId == old(nextId) + 1
      ensures created == Row(IdFor(old(nextId)), BadgeFromInsert(p, now))
      ensures forall i :: 0 <= i < |old(badges)| ==> old(badges)[i].id != created.id
      ensures badges == old(badges) + [created]
    {
      created := Row(IdFor(nextId), BadgeFromInsert(p, now));
      IdForFresh(badges, nextId);
      InsertWellKeyed(badges, nextId, created.data);
      badges := badges + [created];
      nextId := nextId + 1;
    }

    // ------------------------------------------------------------- messages

    /** All messages, newest first. */
    method GetMessages() returns (r: seq<MotivationMessage>)
      ensures multiset(r) == multiset(messages)
      ensures forall i, j :: 0 <= i < j < |r| ==> r[i].data.createdAt >= r[j].data.createdAt
    {
      var key := (x: MotivationMessage) => -x.data.createdAt;
      r := Seqs.SortBy(messages, key);
      assert forall i, j :: 0 <= i < j < |r| ==> key(r[i]) <= key(r[j]);
    }

    method CreateMessage(p: InsertMessage, now: int) returns (created: MotivationMessage)
      requires Valid()
      modifies this`messages, this`nextId
      ensures Valid() && nextId == old(nextId) + 1
      ensures created == Row(IdFor(old(nextId)), MessageFromInsert(p, now))
      ensures forall i :: 0 <= i < |old(messages)| ==> old(messages)[i].id != created.id
      ensures messages == old(messages) + [created]
    {
      created := Row(IdFor(nextId), MessageFromInsert(p, now));
      IdForFresh(messages, nextId);
      InsertWellKeyed(messages, nextId, created.data);
      messages := messages + [created];
      nextId := nextId + 1;
    }

    // ----------------------------------------------------- AI workout plans

    /** The partner's plans and no others, newest first. */
    method GetAiWorkoutPlans(partnerId: Id) returns (r: seq<AiWorkoutPlan>)
      ensures multiset(r) == multiset(Seqs.Filter(aiWorkoutPlans, (x: AiWorkoutPlan) => x.data.partnerId == partnerId))
      ensures forall x :: x in r <==> x in aiWorkoutPlans && x.data.partnerId == partnerId
      ensures forall i, j :: 0 <= i < j < |r| ==> r[i].data.createdAt >= r[j].data.createdAt
    {
      var mine := Seqs.Filter(aiWorkoutPlans, (x: AiWorkoutPlan) => x.data.partnerId == partnerId);
      var key := (x: AiWorkoutPlan) => -x.data.createdAt;
      r := Seqs.SortBy(mine, key);
      assert forall i, j :: 0 <= i < j < |r| ==> key(r[i]) <= key(r[j]);
      assert forall x :: x in r <==> x in multiset(mine);
    }

    method CreateAiWorkoutPlan(p: InsertAiWorkoutPlan, now: int) returns (created: AiWorkoutPlan)
      requires Valid()
      modifies this`aiWorkoutPlans, this`nextId
      ensures Valid() && nextId == old(nextId) + 1
      ensures created == Row(IdFor(old(nextId)), AiWorkoutPlanFromInsert(p, now))
      ensures forall i :: 0 <= i < |old(aiWorkoutPlans)| ==> old(aiWorkoutPlans)[i].id != created.id
      ensures aiWorkoutPlans == old(aiWorkoutPlans) + [created]
    {
      created := Row(IdFor(nextId), AiWorkoutPlanFromInsert(p, now));
      IdForFresh(aiWorkoutPlans, nextId);
      InsertWellKeyed(aiWorkoutPlans, nextId, created.data);
      aiWorkoutPlans := aiWorkoutPlans + [created];
      nextId := nextId + 1;
    }

    /** Deletes the plan with that id, keeping the others in order; reports whether there was one. */
    method DeleteAiWorkoutPlan(id: Id) returns (deleted: bool)
      requires Valid()
      modifies this`aiWorkoutPlans
      ensures Valid()
      ensures deleted <==> exists i :: 0 <= i < |old(aiWorkoutPlans)| && old(aiWorkoutPlans)[i].id == id
      ensures forall i :: 0 <= i < |aiWorkoutPlans| ==> aiWorkoutPlans[i].id != id
      ensures forall x :: x in aiWorkoutPlans <==> x in old(aiWorkoutPlans) && x.id != id
      ensures aiWorkoutPlans == DeleteWhere(old(aiWorkoutPlans), (x: AiWorkoutPlan) => x.id == id)
    {
      var p := (x: AiWorkoutPlan) => x.id == id;
      DeleteWellKeyed(aiWorkoutPlans, p, nextId);
      var found := FindById(aiWorkoutPlans, id);
      deleted := found.Some?;
      aiWorkoutPlans := DeleteWhere(aiWorkoutPlans, p);
    }

    // -------------------------------------------------------- AI meal plans

    /** All AI recipes, newest first. */
    method GetAiMealPlans() returns (r: seq<AiMealPlan>)
      ensures multiset(r) == multiset(aiMealPlans)
      ensures forall i, j :: 0 <= i < j < |r| ==> r[i].data.createdAt >= r[j].data.createdAt
    {
      var key := (x: AiMealPlan) => -x.data.createdAt;
      r := Seqs.SortBy(aiMealPlans, key);
      assert forall i, j :: 0 <= i < j < |r| ==> key(r[i]) <= key(r[j]);
    }

    method CreateAiMealPlan(data: AiMealPlanFields) returns (created: AiMealPlan)
      requires Valid()
      modifies this`aiMealPlans, this`nextId
      ensures Valid() && nextId == old(nextId) + 1
      ensures created == Row(IdFor(old(nextId)), data)
      ensures forall i :: 0 <= i < |old(aiMealPlans)| ==> old(aiMealPlans)[i].id != created.id
      ensures aiMealPlans == old(aiMealPlans) + [created]
    {
      created := Row(IdFor(nextId), data);
      IdForFresh(aiMealPlans, nextId);
      InsertWellKeyed(aiMealPlans, nextId, data);
      aiMealPlans := aiMealPlans + [created];
      nextId := nextId + 1;
    }

    /** Deletes the recipe with that id, keeping the others in order; an unknown id changes nothing. */
    method DeleteAiMealPlan(id: Id)
      requires Valid()
      modifies this`aiMealPlans
      ensures Valid()
      ensures forall x :: x in aiMealPlans <==> x in old(aiMealPlans) && x.id != id
      ensures aiMealPlans == DeleteWhere(old(aiMealPlans), (x: AiMealPlan) => x.id == id)
      ensures (forall i :: 0 <= i < |old(aiMealPlans)| ==> old(aiMealPlans)[i].id != id) ==> aiMealPlans == old(aiMealPlans)
    {
      var p := (x: AiMealPlan) => x.id == id;
      DeleteWellKeyed(aiMealPlans, p, nextId);
      if forall i :: 0 <= i < |aiMealPlans| ==> aiMealPlans[i].id != id {
        DeleteWhereNone(aiMealPlans, p);
      }
      aiMealPlans := DeleteWhere(aiMealPlans, p);
    }
  }
}
