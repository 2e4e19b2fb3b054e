/** client/src/components/activities-tab.tsx: the activity list's type filter and the
    "log this workout" dialog, whose payload is the body of POST /api/workout-logs. */
module ActivitiesTab {
  import opened Wrappers
  import opened Js
  import opened Schema
  import opened Seqs
  import opened Routes

  const ActivityIcons: seq<string> := ["Mountain", "Waves", "PersonStanding", "Bike", "Zap", "Music", "Dumbbell",
                                       "HeartPulse", "Footprints", "Timer", "BarChart3"]
  const FallbackActivityIcon: string := "Dumbbell"

  /** getIcon: a known icon name is used as is; anything else falls back to Dumbbell. */
  function ActivityIcon(name: string): (icon: string)
    ensures icon in ActivityIcons
    ensures name in ActivityIcons <==> icon == name
  {
    if name in ActivityIcons then name else FallbackActivityIcon
  }

  const ShowAll: string := "all"

  function OfType(t: string): Activity -> bool
  {
    (a: Activity) => a.data.activityType == t
  }

  /** `filtered`: every activity under "all", otherwise those of the chosen type. */
  function Shown(activities: seq<Activity>, filter: string): (r: seq<Activity>)
    ensures filter == ShowAll ==> r == activities
    ensures filter != ShowAll ==> forall a :: a in r <==> a in activities && a.data.activityType == filter
    ensures |r| <= |activities|
  {
    if filter == ShowAll then activities else Filter(activities, OfType(filter))
  }

  /** The shown activities keep the list's order, and each as many times as it occurs. */
  lemma ShownKeepsOrder(before: seq<Activity>, after: seq<Activity>, filter: string, a: Activity)
    ensures Shown(before + after, filter) == Shown(before, filter) + Shown(after, filter)
    ensures filter != ShowAll && a.data.activityType == filter ==>
      multiset(Shown(before + after, filter))[a] == multiset(before + after)[a]
  {
    if filter != ShowAll {
      FilterAppend(before, after, OfType(filter));
      FilterMultiset(before + after, OfType(filter), a);
    }
  }

  // ------------------------------------------------------------ the dialog

  /** The dialog's selections: the activity clicked and the partner picked. */
  datatype LogDialog = LogDialog(selectedActivity: Option<Activity>, selectedPartner: Id)

  datatype LogResult = LogResult(payload: Option<WorkoutLogBody>, dialog: LogDialog)

  /** A number as JSON.stringify sends it: NaN becomes null. */
  function NumberJson(n: Option<int>): (v: JsonValue)
    ensures v.Int? <==> n.Some?
    ensures n.Some? ==> v.i == n.value
    ensures n.None? ==> v == Null
  {
    match n
    case None => Null
    case Some(i) => Int(i)
  }

  /** handleLog: with an activity and a partner selected, log the activity for the partner,
      its duration being parseInt of the duration text, and clear both selections. */
  function HandleLog(d: LogDialog): (r: LogResult)
    ensures r.payload.Some? <==> d.selectedActivity.Some? && d.selectedPartner != ""
    ensures r.payload.None? ==> r.dialog == d
    ensures r.payload.Some? ==> r.dialog == LogDialog(None, "")
    ensures r.payload.Some? ==> var a := d.selectedActivity.value.data;
      r.payload.value == WorkoutLogBody(Text(d.selectedPartner), Text(a.name), NumberJson(ParseInt(a.duration)), Int(a.calories), Absent)
  {
    match d.selectedActivity
    case None => LogResult(None, d)
    case Some(activity) =>
      if d.selectedPartner == "" then LogResult(None, d)
      else
        var a := activity.data;
        LogResult(Some(WorkoutLogBody(Text(d.selectedPartner), Text(a.name), NumberJson(ParseInt(a.duration)), Int(a.calories), Absent)),
                  LogDialog(None, ""))
  }

  /** The server accepts the logged payload exactly when the duration text starts with a
      number, and stores the activity's name and calories for the selected partner. */
  lemma LoggedPayloadValidates(d: LogDialog)
    requires HandleLog(d).payload.Some?
    ensures var a := d.selectedActivity.value.data;
      && (ValidateWorkoutLog(HandleLog(d).payload.value).Some? <==> ParseInt(a.duration).Some?)
      && (ParseInt(a.duration).Some? ==>
            ValidateWorkoutLog(HandleLog(d).payload.value) ==
              Some(InsertWorkoutLog(d.selectedPartner, a.name, ParseInt(a.duration).value, a.calories, Omitted)))
  {
  }

  /** "45 min" is logged as 45 minutes. */
  lemma DurationTextParses()
    ensures ParseInt("45 min") == Some(45)
  {
    assert IntToString(45) == "45" by {
      assert NatToString(45) == NatToString(4) + [DigitChar(5)];
    }
    assert "45 min" == IntToString(45) + " min";
    ParseIntOfIntToString(45, " min");
  }
}
