/** client/src/components/dashboard-tab.tsx: the numbers the dashboard shows. Timestamps
    are milliseconds of local time (a fixed offset from UTC, no daylight-saving jumps), so
    local midnight and the day of the week are arithmetic on them. */
module Dashboard {
  import opened Wrappers
  import opened Js
  import opened Schema
  import opened Seqs

  // ------------------------------------------------------------------- time

  const DayMs := 86_400_000

  /** setHours(0, 0, 0, 0): the midnight starting t's day. */
  function Midnight(t: int): (m: int)
    ensures m <= t < m + DayMs && m % DayMs == 0
  {
    t - t % DayMs
  }

  /** getDay: 0 is Sunday, 6 is Saturday; day 0 (1 January 1970) was a Thursday. */
  function Weekday(t: int): (d: int)
    ensures 0 <= d < 7
  {
    (t / DayMs + 4) % 7
  }

  /** `startOfWeek`: today's midnight moved back to Sunday, at most six days. */
  function StartOfWeek(now: int): (s: int)
    ensures s <= Midnight(now) <= now && Midnight(now) - s <= 6 * DayMs
    ensures (Midnight(now) - s) % DayMs == 0
  {
    DayArithmetic(Weekday(now), 0);
    Midnight(now) - Weekday(now) * DayMs
  }

  lemma DayArithmetic(k: int, r: int)
    requires 0 <= r < DayMs
    ensures (k * DayMs + r) / DayMs == k && (k * DayMs + r) % DayMs == r
  {
  }

  /** The week starts at a Sunday midnight at or before now, less than seven days back, and
      at or before today's midnight; no later Sunday midnight is at or before now. */
  lemma StartOfWeekIsLastSunday(now: int)
    ensures var s := StartOfWeek(now);
      && Midnight(s) == s && Weekday(s) == 0
      && s <= Midnight(now) <= now < s + 7 * DayMs
      && forall m :: Midnight(m) == m && Weekday(m) == 0 && m <= now ==> m <= s
  {
    var day := now / DayMs;
    var w := Weekday(now);
    DayArithmetic(day, now % DayMs);
    assert Midnight(now) == day * DayMs;
    var s := StartOfWeek(now);
    assert s == (day - w) * DayMs;
    DayArithmetic(day - w, 0);
    forall m | Midnight(m) == m && Weekday(m) == 0 && m <= now ensures m <= s {
      NoLaterSunday(now, m);
    }
  }

  /** A Sunday midnight at or before now is not after the week's start. */
  lemma NoLaterSunday(now: int, m: int)
    requires Midnight(m) == m && Weekday(m) == 0 && m <= now
    ensures m <= StartOfWeek(now)
  {
    var day := now / DayMs;
    var w := Weekday(now);
    DayArithmetic(day, now % DayMs);
    assert StartOfWeek(now) == (day - w) * DayMs;
    var k := m / DayMs;
    DayArithmetic(k, m % DayMs);
    assert m == k * DayMs;
    assert k <= day;
    assert (k + 4) % 7 == 0 && (day + 4) % 7 == w;
    assert k <= day - w;
  }

  // ---------------------------------------------------------- log aggregation

  /** The partner's logs at or after time `from`. */
  function LoggedSince(partnerId: Id, from: int): WorkoutLog -> bool
  {
    (l: WorkoutLog) => l.data.partnerId == partnerId && l.data.loggedAt >= from
  }

  /** getWeeklyCompletedCount: the partner's logs since the start of the week. There is no
      upper bound, so a log stamped after now counts too. */
  function WeeklyCompletedCount(logs: seq<WorkoutLog>, partnerId: Id, now: int): (n: nat)
    ensures n <= |logs|
  {
    |Filter(logs, LoggedSince(partnerId, StartOfWeek(now)))|
  }

  function Calories(l: WorkoutLog): int
  {
    l.data.caloriesBurned
  }

  /** getTodayCalories: the calories of the partner's logs since today's midnight. */
  function TodayCalories(logs: seq<WorkoutLog>, partnerId: Id, now: int): (c: int)
    ensures (forall i :: 0 <= i < |logs| ==> logs[i].data.partnerId != partnerId || logs[i].data.loggedAt < Midnight(now)) ==> c == 0
    ensures (forall l :: l in logs ==> l.data.caloriesBurned >= 0) ==> c >= 0
  {
    var today := Filter(logs, LoggedSince(partnerId, Midnight(now)));
    assert (forall i :: 0 <= i < |logs| ==> logs[i].data.partnerId != partnerId || logs[i].data.loggedAt < Midnight(now))
           ==> today == [] by {
      if forall i :: 0 <= i < |logs| ==> logs[i].data.partnerId != partnerId || logs[i].data.loggedAt < Midnight(now) {
        FilterNone(logs, LoggedSince(partnerId, Midnight(now)));
      }
    }
    assert (forall l :: l in logs ==> l.data.caloriesBurned >= 0) ==> SumBy(today, Calories) >= 0 by {
      if forall l :: l in logs ==> l.data.caloriesBurned >= 0 {
        SumByNonNegative(today, Calories);
      }
    }
    SumBy(today, Calories)
  }

  /** A log of the partner counts toward the week exactly when it is at or after the week's
      start, even when it lies in the future. */
  lemma WeeklyCountsLog(logs: seq<WorkoutLog>, partnerId: Id, now: int, l: WorkoutLog)
    requires l in logs && l.data.partnerId == partnerId
    ensures l in Filter(logs, LoggedSince(partnerId, StartOfWeek(now))) <==> l.data.loggedAt >= StartOfWeek(now)
    ensures l.data.loggedAt > now ==> l in Filter(logs, LoggedSince(partnerId, StartOfWeek(now)))
    ensures l.data.loggedAt > now ==> l in Filter(logs, LoggedSince(partnerId, Midnight(now)))
  {
    StartOfWeekIsLastSunday(now);
  }

  /** Logs of other partners, wherever they are added, change neither number. */
  lemma OtherPartnersIgnored(before: seq<WorkoutLog>, others: seq<WorkoutLog>, after: seq<WorkoutLog>, partnerId: Id, now: int)
    requires forall i :: 0 <= i < |others| ==> others[i].data.partnerId != partnerId
    ensures WeeklyCompletedCount(before + others + after, partnerId, now) == WeeklyCompletedCount(before + after, partnerId, now)
    ensures TodayCalories(before + others + after, partnerId, now) == TodayCalories(before + after, partnerId, now)
  {
    var week, today := LoggedSince(partnerId, StartOfWeek(now)), LoggedSince(partnerId, Midnight(now));
    FilterAppend(before + others, after, week);
    FilterAppend(before, others, week);
    FilterAppend(before, after, week);
    FilterNone(others, week);
    FilterAppend(before + others, after, today);
    FilterAppend(before, others, today);
    FilterAppend(before, after, today);
    FilterNone(others, today);
    assert Filter(before + others, today) == Filter(before, today);
  }

  /** Today's midnight is inside the week, so every log counted toward today's calories is
      counted toward the week too. */
  lemma TodayWithinWeek(logs: seq<WorkoutLog>, partnerId: Id, now: int)
    ensures StartOfWeek(now) <= Midnight(now)
    ensures forall l :: l in Filter(logs, LoggedSince(partnerId, Midnight(now))) ==> l in Filter(logs, LoggedSince(partnerId, StartOfWeek(now)))
    ensures |Filter(logs, LoggedSince(partnerId, Midnight(now)))| <= WeeklyCompletedCount(logs, partnerId, now)
  {
    StartOfWeekIsLastSunday(now);
    FilterWeaker(logs, LoggedSince(partnerId, Midnight(now)), LoggedSince(partnerId, StartOfWeek(now)));
  }

  // ------------------------------------------------------------- percentages

  /** A JavaScript number as the progress bars can see it. */
  datatype Percent = Finite(value: int) | NotANumber | MinusInfinity

  /** Math.min(Math.round(x / goal * 100), 100). A goal of 0 gives x/0: Infinity for a
      positive x (clamped to 100), NaN for 0, -Infinity for a negative x. */
  function ClampedPercent(x: int, goal: int): (p: Percent)
    ensures p.Finite? ==> p.value <= 100
    ensures goal > 0 && x >= 0 ==> p.Finite? && 0 <= p.value
    ensures goal != 0 ==> p.Finite?
  {
    if goal > 0 then Finite(Min(RoundDiv(100 * x, goal), 100))
    else if goal < 0 then Finite(Min(RoundDiv(-100 * x, -goal), 100))
    else if x > 0 then Finite(100)
    else if x == 0 then NotANumber
    else MinusInfinity
  }

  /** `weeklyPercent >= 100`, which shows "(Done!)"; NaN and -Infinity are not. */
  predicate Done(p: Percent)
  {
    p.Finite? && p.value >= 100
  }

  /** With a positive goal the bar is full exactly when x is within half a percent of it. */
  lemma DoneIff(x: int, goal: int)
    requires goal > 0
    ensures Done(ClampedPercent(x, goal)) <==> 200 * x >= 199 * goal
  {
    var r := RoundDiv(100 * x, goal);
    if r >= 100 {
      MulMonotone(2 * goal, 100, r);
    } else {
      MulMonotone(2 * goal, r + 1, 100);
    }
  }

  /** For a goal below 200 that half percent holds no whole workout: done means the goal is met. */
  lemma DoneIffGoalMet(x: int, goal: int)
    requires 0 < goal < 200
    ensures Done(ClampedPercent(x, goal)) <==> x >= goal
  {
    DoneIff(x, goal);
  }

  /** For a calorie goal of 2000, 1995 calories already fill the bar. */
  lemma CalorieBarFullEarly()
    ensures ClampedPercent(1995, 2000) == Finite(100)
  {
    RoundDivUnique(100 * 1995, 2000, 100);
  }

  // --------------------------------------------------------------- the banner

  /** The banner's streak: the largest partner streak, or 0 without partners. */
  function BannerStreak(partners: seq<Partner>): (r: int)
    ensures |partners| == 0 ==> r == 0
    ensures forall i :: 0 <= i < |partners| ==> partners[i].data.streak <= r
    ensures |partners| > 0 ==> exists i :: 0 <= i < |partners| && partners[i].data.streak == r
  {
    if |partners| == 0 then 0
    else if |partners| == 1 then partners[0].data.streak
    else
      var rest := BannerStreak(partners[1..]);
      assert forall i :: 1 <= i < |partners| ==> partners[i] == partners[1..][i - 1];
      Max(partners[0].data.streak, rest)
  }

  function IsActive(c: Challenge): bool
  {
    c.data.active
  }

  /** The preview: the first two active challenges, in list order. */
  function ActiveChallenges(challenges: seq<Challenge>): (r: seq<Challenge>)
    ensures |r| <= 2 && r <= Filter(challenges, IsActive)
    ensures |r| == Min(2, |Filter(challenges, IsActive)|)
    ensures forall i :: 0 <= i < |r| ==> r[i].data.active && r[i] in challenges
  {
    Take(Filter(challenges, IsActive), 2)
  }

  /** Once two active challenges have been seen, nothing later changes the preview. */
  lemma ActiveChallengesFirstTwo(first: seq<Challenge>, later: seq<Challenge>)
    requires |Filter(first, IsActive)| >= 2
    ensures ActiveChallenges(first + later) == ActiveChallenges(first)
  {
    FilterAppend(first, later, IsActive);
    var f := Filter(first, IsActive);
    assert (f + Filter(later, IsActive))[..2] == f[..2];
  }

  // ------------------------------------------------------------ sending a note

  /** What handleSend sends, and what is left in the input afterwards. */
  datatype SendResult = SendResult(sent: Option<string>, input: string)

  /** handleSend: the trimmed text is sent, and the input cleared, only when it is not
      blank; a blank text leaves everything as it was. */
  function HandleSend(text: string): (r: SendResult)
    ensures r.sent.None? <==> forall i :: 0 <= i < |text| ==> IsSpace(text[i])
    ensures r.sent.None? ==> r.input == text
    ensures r.sent.Some? ==> r.input == "" && r.sent.value == Trim(text)
    ensures r.sent.Some? ==> r.sent.value != "" && !IsSpace(r.sent.value[0]) && !IsSpace(r.sent.value[|r.sent.value| - 1])
  {
    TrimEmptyIff(text);
    var t := Trim(text);
    if t != "" then SendResult(Some(t), "") else SendResult(None, text)
  }

  /** A note of nothing but Unicode space separators (here the ideographic space and the
      em space) is blank and is not sent. */
  lemma UnicodeSpacesAreBlank(text: string)
    requires forall i :: 0 <= i < |text| ==> text[i] == '\U{3000}' || text[i] == '\U{2003}'
    ensures HandleSend(text).sent.None? && HandleSend(text).input == text
  {
  }
}
