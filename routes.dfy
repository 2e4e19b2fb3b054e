/** server/routes.ts: the request handlers that write. A request body is modelled key by
    key as the JSON value found under each key the table's insert schema knows (keys it
    does not know are stripped by validation). Validation mirrors the insert schemas that
    drizzle-zod derives from shared/schema.ts: text columns want a string, integer columns
    an integer, boolean columns a boolean; a column with a default or a nullable column may
    be left out; a nullable column also takes null; a timestamp column wants a Date, which
    a JSON body cannot carry. */
module Routes {
  import opened Wrappers
  import opened Schema
  import opened Table
  import opened Js
  import opened Storage

  /** The HTTP answer: 200 with a JSON body, or one of the error statuses. */
  datatype Response<T> = Json(body: T) | BadRequest | NotFound | ServerError

  // ---------------------------------------------------------------- validation

  /** A required text column. */
  function RequiredText(v: JsonValue): (r: Option<string>)
    ensures r.Some? <==> v.Text?
    ensures r.Some? ==> r.value == v.s
  {
    if v.Text? then Some(v.s) else None
  }

  /** A required integer column. */
  function RequiredInt(v: JsonValue): (r: Option<int>)
    ensures r.Some? <==> v.Int?
    ensures r.Some? ==> r.value == v.i
  {
    if v.Int? then Some(v.i) else None
  }

  /** A timestamp column with a default: only leaving it out validates. */
  predicate TimestampLeftOut(v: JsonValue)
  {
    v.Absent?
  }

  /** The body of POST /api/workout-logs. */
  datatype WorkoutLogBody = WorkoutLogBody(
    partnerId: JsonValue,
    activityName: JsonValue,
    duration: JsonValue,
    caloriesBurned: JsonValue,
    loggedAt: JsonValue)

  /** insertWorkoutLogSchema.parse. */
  function ValidateWorkoutLog(b: WorkoutLogBody): (r: Option<InsertWorkoutLog>)
    ensures r.Some? <==> b.partnerId.Text? && b.activityName.Text? && b.duration.Int? && b.caloriesBurned.Int? && b.loggedAt.Absent?
    ensures r.Some? ==> r.value == InsertWorkoutLog(b.partnerId.s, b.activityName.s, b.duration.i, b.caloriesBurned.i, Omitted)
  {
    match (RequiredText(b.partnerId), RequiredText(b.activityName), RequiredInt(b.duration), RequiredInt(b.caloriesBurned))
    case (Some(pid), Some(name), Some(d), Some(c)) =>
      if TimestampLeftOut(b.loggedAt) then Some(InsertWorkoutLog(pid, name, d, c, Omitted)) else None
    case _ => None
  }

  /** The body of POST /api/meal-plans. */
  datatype MealPlanBody = MealPlanBody(mealId: JsonValue, dayOfWeek: JsonValue, completed: JsonValue)

  /** The nullable, optional mealId: left out, null, or a string. */
  function OptionalNullableText(v: JsonValue): (r: Option<Field<Option<string>>>)
    ensures r.Some? <==> v.Absent? || v.Null? || v.Text?
    ensures r == Some(Omitted) <==> v.Absent?
    ensures r == Some(Given(None)) <==> v.Null?
    ensures v.Text? ==> r == Some(Given(Some(v.s)))
  {
    match v
    case Absent => Some(Omitted)
    case Null => Some(Given(None))
    case Text(s) => Some(Given(Some(s)))
    case _ => None
  }

  /** A boolean column with a default: left out or a boolean (null is refused, since the
      column is not nullable). */
  function OptionalBool(v: JsonValue): (r: Option<Field<bool>>)
    ensures r.Some? <==> v.Absent? || v.Bool?
    ensures r == Some(Omitted) <==> v.Absent?
    ensures v.Bool? ==> r == Some(Given(v.b))
  {
    match v
    case Absent => Some(Omitted)
    case Bool(b) => Some(Given(b))
    case _ => None
  }

  /** insertMealPlanSchema.parse. */
  function ValidateMealPlan(b: MealPlanBody): (r: Option<InsertMealPlan>)
    ensures r.Some? <==> (b.mealId.Absent? || b.mealId.Null? || b.mealId.Text?) && b.dayOfWeek.Int? && (b.completed.Absent? || b.completed.Bool?)
    ensures r.Some? ==> r.value.dayOfWeek == b.dayOfWeek.i
    ensures r.Some? ==> r.value.mealId == (if b.mealId.Absent? then Omitted else if b.mealId.Null? then Given(None) else Given(Some(b.mealId.s)))
    ensures r.Some? ==> r.value.completed == (if b.completed.Absent? then Omitted else Given(b.completed.b))
  {
    match (OptionalNullableText(b.mealId), RequiredInt(b.dayOfWeek), OptionalBool(b.completed))
    case (Some(m), Some(d), Some(c)) => Some(InsertMealPlan(m, d, c))
    case _ => None
  }

  /** The body of POST /api/messages. */
  datatype MessageBody = MessageBody(message: JsonValue, fromPartner: JsonValue, createdAt: JsonValue)

  /** A nullable column without a default: left out or null both store null. */
  function NullableText(v: JsonValue): (r: Option<Option<string>>)
    ensures r.Some? <==> v.Absent? || v.Null? || v.Text?
    ensures r == Some(None) <==> v.Absent? || v.Null?
    ensures v.Text? ==> r == Some(Some(v.s))
  {
    match v
    case Absent => Some(None)
    case Null => Some(None)
    case Text(s) => Some(Some(s))
    case _ => None
  }

  /** insertMotivationMessageSchema.parse. */
  function ValidateMessage(b: MessageBody): (r: Option<InsertMessage>)
    ensures r.Some? <==> b.message.Text? && (b.fromPartner.Absent? || b.fromPartner.Null? || b.fromPartner.Text?) && b.createdAt.Absent?
    ensures r.Some? ==> r.value.message == b.message.s && r.value.createdAt == Omitted
    ensures r.Some? ==> r.value.fromPartner == (if b.fromPartner.Text? then Some(b.fromPartner.s) else None)
  {
    match (RequiredText(b.message), NullableText(b.fromPartner))
    case (Some(m), Some(f)) => if TimestampLeftOut(b.createdAt) then Some(InsertMessage(m, f, Omitted)) else None
    case _ => None
  }

  // ------------------------------------------------------------------ handlers

  /** POST /api/workout-logs: validate, store the log, then give the partner one more day of
      streak. An invalid body writes nothing; an unknown partner still gets the log stored
      and no streak changes. Nothing about the date is looked at: every log adds one. */
  method PostWorkoutLog(s: Store, body: WorkoutLogBody, now: int) returns (resp: Response<WorkoutLog>)
    requires s.Valid()
    modifies s
    ensures s.Valid()
    ensures ValidateWorkoutLog(body).None? ==> resp == BadRequest && unchanged(s)
    ensures ValidateWorkoutLog(body).Some? ==>
      var ins := ValidateWorkoutLog(body).value;
      && resp == Json(Row(IdFor(old(s.nextId)), WorkoutLogFromInsert(ins, now)))
      && s.workoutLogs == old(s.workoutLogs) + [resp.body]
      && s.nextId == old(s.nextId) + 1
      && |s.partners| == |old(s.partners)|
      && (forall i :: 0 <= i < |s.partners| ==>
            s.partners[i] == if old(s.partners)[i].id == ins.partnerId
                             then old(s.partners)[i].(data := old(s.partners)[i].data.(streak := old(s.partners)[i].data.streak + 1))
                             else old(s.partners)[i])
    ensures s.activities == old(s.activities) && s.meals == old(s.meals) && s.mealPlans == old(s.mealPlans)
    ensures s.challenges == old(s.challenges) && s.badges == old(s.badges) && s.messages == old(s.messages)
    ensures s.aiWorkoutPlans == old(s.aiWorkoutPlans) && s.aiMealPlans == old(s.aiMealPlans)
  {
    var parsed := ValidateWorkoutLog(body);
    if parsed.None? {
      return BadRequest;
    }
    var ins := parsed.value;
    var log := s.CreateWorkoutLog(ins, now);
    var partner := s.GetPartner(ins.partnerId);
    if partner.Some? {
      var _ := s.UpdatePartnerStreak(partner.value.id, partner.value.data.streak + 1);
    }
    resp := Json(log);
  }

  /** Two valid logs for a known partner, whatever their dates, add two to the streak. */
  method PostWorkoutLogTwice(s: Store, first: WorkoutLogBody, second: WorkoutLogBody, now: int, later: int, k: nat)
    requires s.Valid()
    requires ValidateWorkoutLog(first).Some? && ValidateWorkoutLog(second).Some?
    requires ValidateWorkoutLog(first).value.partnerId == ValidateWorkoutLog(second).value.partnerId
    requires k < |s.partners| && s.partners[k].id == ValidateWorkoutLog(first).value.partnerId
    modifies s
    ensures s.Valid()
    ensures |s.partners| == |old(s.partners)| && s.partners[k].data.streak == old(s.partners[k].data.streak) + 2
    ensures |s.workoutLogs| == |old(s.workoutLogs)| + 2
  {
    var _ := PostWorkoutLog(s, first, now);
    var _ := PostWorkoutLog(s, second, later);
  }

  /** PATCH /api/challenges/:id with the body's `progress`. A missing or non-number value is
      refused before any write; a number with a fraction reaches the integer column and the
      database refuses it; any integer is written (no range check); an unknown id is 404. */
  method PatchChallenge(s: Store, id: Id, progress: JsonValue) returns (resp: Response<Challenge>)
    requires s.Valid()
    modifies s`challenges
    ensures s.Valid()
    ensures !progress.IsNumber() ==> resp == BadRequest && unchanged(s)
    ensures progress.Fraction? ==> resp == ServerError && unchanged(s)
    ensures progress.Int? ==>
      && |s.challenges| == |old(s.challenges)|
      && (forall i :: 0 <= i < |s.challenges| ==>
            s.challenges[i] == if old(s.challenges)[i].id == id
                               then old(s.challenges)[i].(data := old(s.challenges)[i].data.(progress := progress.i))
                               else old(s.challenges)[i])
      && (resp == NotFound <==> forall i :: 0 <= i < |old(s.challenges)| ==> old(s.challenges)[i].id != id)
      && (resp.Json? ==> resp.body in s.challenges && resp.body.id == id && resp.body.data.progress == progress.i)
    ensures progress.Int? ==> resp.Json? || resp == NotFound
    ensures progress.Int? && resp == NotFound ==> s.challenges == old(s.challenges)
  {
    if !progress.IsNumber() {
      return BadRequest;
    }
    if progress.Fraction? {
      return ServerError;
    }
    var updated := s.UpdateChallengeProgress(id, progress.i);
    if updated.None? {
      assert forall i :: 0 <= i < |s.challenges| ==> s.challenges[i] == old(s.challenges)[i];
      return NotFound;
    }
    resp := Json(updated.value);
  }

  /** PATCH /api/meal-plans/:id: the body goes to the update unvalidated. A body with
      nothing to set is a database error (500); an unknown id is 404. */
  method PatchMealPlan(s: Store, id: Id, patch: MealPlanPatch) returns (resp: Response<MealPlan>)
    requires s.Valid()
    modifies s`mealPlans
    ensures s.Valid()
    ensures patch.IsEmpty() ==> resp == ServerError && unchanged(s)
    ensures !patch.IsEmpty() ==>
      && |s.mealPlans| == |old(s.mealPlans)|
      && (forall i :: 0 <= i < |s.mealPlans| ==>
            s.mealPlans[i] == if old(s.mealPlans)[i].id == id then Row(id, ApplyMealPlanPatch(old(s.mealPlans)[i].data, patch))
                              else old(s.mealPlans)[i])
      && (resp == NotFound <==> forall i :: 0 <= i < |old(s.mealPlans)| ==> old(s.mealPlans)[i].id != id)
      && (resp.Json? || resp == NotFound)
      && (resp.Json? ==> resp.body in s.mealPlans && resp.body.id == id)
  {
    var r := s.UpdateMealPlan(id, patch);
    if r.DbError? {
      return ServerError;
    }
    if r.value.None? {
      return NotFound;
    }
    resp := Json(r.value.value);
  }

  /** POST /api/meal-plans: validate, then the upsert by day. An invalid body writes
      nothing. A valid one rewrites every plan of its day with the body's mealId (a left-out
      one keeps the old) and completed false, or, for a day without a plan, inserts the
      body's plan; either way each day keeps one plan. */
  method PostMealPlan(s: Store, body: MealPlanBody) returns (resp: Response<MealPlan>)
    requires s.Valid()
    modifies s`mealPlans, s`nextId
    ensures s.Valid()
    ensures ValidateMealPlan(body).None? ==> resp == BadRequest && unchanged(s)
    ensures ValidateMealPlan(body).Some? ==>
      var p := ValidateMealPlan(body).value;
      && resp.Json? && resp.body in s.mealPlans && resp.body.data.dayOfWeek == body.dayOfWeek.i
      && ((exists i :: 0 <= i < |old(s.mealPlans)| && old(s.mealPlans)[i].data.dayOfWeek == p.dayOfWeek) ==>
            && s.nextId == old(s.nextId)
            && |s.mealPlans| == |old(s.mealPlans)|
            && (forall i :: 0 <= i < |s.mealPlans| ==>
                  s.mealPlans[i] == if old(s.mealPlans)[i].data.dayOfWeek == p.dayOfWeek
                                    then Row(old(s.mealPlans)[i].id, UpsertFields(old(s.mealPlans)[i].data, p))
                                    else old(s.mealPlans)[i]))
      && ((forall i :: 0 <= i < |old(s.mealPlans)| ==> old(s.mealPlans)[i].data.dayOfWeek != p.dayOfWeek) ==>
            && s.nextId == old(s.nextId) + 1
            && resp.body == Row(IdFor(old(s.nextId)), MealPlanFromInsert(p))
            && s.mealPlans == old(s.mealPlans) + [resp.body])
    ensures OnePlanPerDay(old(s.mealPlans)) ==> OnePlanPerDay(s.mealPlans)
  {
    var parsed := ValidateMealPlan(body);
    if parsed.None? {
      return BadRequest;
    }
    var plan := s.CreateMealPlan(parsed.value);
    resp := Json(plan);
  }

  /** POST /api/messages: validate, then store the message. */
  method PostMessage(s: Store, body: MessageBody, now: int) returns (resp: Response<MotivationMessage>)
    requires s.Valid()
    modifies s`messages, s`nextId
    ensures s.Valid()
    ensures ValidateMessage(body).None? ==> resp == BadRequest && unchanged(s)
    ensures ValidateMessage(body).Some? ==>
      && resp == Json(Row(IdFor(old(s.nextId)), MessageFromInsert(ValidateMessage(body).value, now)))
      && s.messages == old(s.messages) + [resp.body]
      && resp.body.data.createdAt == now
      && s.nextId == old(s.nextId) + 1
  {
    var parsed := ValidateMessage(body);
    if parsed.None? {
      return BadRequest;
    }
    var created := s.CreateMessage(parsed.value, now);
    resp := Json(created);
  }
}
