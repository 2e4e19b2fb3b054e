/** client/src/components/challenges-tab.tsx: when a challenge counts as complete, and the
    progress its "+10%" button asks for. */
module ChallengesTab {
  import opened Wrappers
  import opened Js
  import opened Schema

  const BadgeIcons: seq<string> := ["Award", "Trophy", "ArrowUp"]
  const FallbackBadgeIcon: string := "Award"

  /** getBadgeIcon: a known icon name is used as is; anything else falls back to Award. */
  function BadgeIcon(name: string): (icon: string)
    ensures icon in BadgeIcons
    ensures name in BadgeIcons <==> icon == name
  {
    if name in BadgeIcons then name else FallbackBadgeIcon
  }

  /** `isComplete`. */
  predicate IsComplete(c: ChallengeFields)
  {
    c.progress >= c.goal
  }

  /** Math.min(progress + 10, 100). */
  function NextProgress(progress: int): (n: int)
    ensures n <= 100 && n <= progress + 10
    ensures n == progress + 10 || n == 100
  {
    Min(progress + 10, 100)
  }

  /** The PATCH /api/challenges/:id body the button sends. */
  datatype ProgressRequest = ProgressRequest(id: Id, progress: int)

  /** The "+10%" button: shown only while the challenge is not complete. */
  function ProgressClick(c: Challenge): (r: Option<ProgressRequest>)
    ensures r.Some? <==> !IsComplete(c.data)
    ensures r.Some? ==> r.value.id == c.id && r.value.progress <= 100
    ensures r.Some? ==> r.value.progress == NextProgress(c.data.progress)
  {
    if IsComplete(c.data) then None else Some(ProgressRequest(c.id, NextProgress(c.data.progress)))
  }

  /** Up to 100 a click never lowers the progress, and below 100 it raises it. */
  lemma NextProgressMonotone(progress: int)
    requires progress <= 100
    ensures NextProgress(progress) >= progress
    ensures progress < 100 ==> NextProgress(progress) > progress
  {
  }

  /** Progress above 100 (the route does not check the range) is pulled back down to 100. */
  lemma NextProgressLowersAboveHundred(progress: int)
    requires progress > 100
    ensures NextProgress(progress) == 100 < progress
  {
  }

  /** The progress after n clicks, each applied as requested. */
  function Clicks(progress: int, n: nat): int
    decreases n
  {
    if n == 0 then progress else Clicks(NextProgress(progress), n - 1)
  }

  /** From at most 100, n clicks reach min(progress + 10n, 100). */
  lemma {:induction false} ClicksReach(progress: int, n: nat)
    requires progress <= 100
    ensures Clicks(progress, n) == Min(progress + 10 * n, 100)
    decreases n
  {
    if n > 0 {
      ClicksReach(NextProgress(progress), n - 1);
    }
  }

  /** A goal of at most 100 is met after at most ten clicks from a non-negative start. */
  lemma TenClicksComplete(c: ChallengeFields)
    requires 0 <= c.progress <= 100 && c.goal <= 100
    ensures IsComplete(c.(progress := Clicks(c.progress, 10)))
  {
    ClicksReach(c.progress, 10);
  }

  /** A goal above 100 is never met by the button, however often it is clicked. */
  lemma {:induction false} GoalAboveHundredNeverCompletes(c: ChallengeFields, n: nat)
    requires c.goal > 100 && c.progress <= 100 && n > 0
    ensures !IsComplete(c.(progress := Clicks(c.progress, n)))
  {
    ClicksReach(c.progress, n);
  }
}
