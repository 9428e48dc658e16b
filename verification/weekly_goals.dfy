/** The weekly-goals card: spotting the goal that has just been reached, and
    the capped count and progress bar of each goal. The goals themselves and
    their counters are inputs; nothing here updates them. */
module WeeklyGoals {
  import opened Common

  datatype GoalType = SessionsGoal | BooksGoal | MinutesGoal

  datatype WeeklyGoal = WeeklyGoal(id: string, goalType: GoalType, title: string, description: string,
                                   target: int, current: int, completed: bool)

  /** Reached but not yet marked completed. */
  function NewlyReached(g: WeeklyGoal): (b: bool)
    ensures b ==> !g.completed && g.target <= g.current
    ensures g.completed ==> !b
  {
    g.current >= g.target && !g.completed
  }

  /** `goals.find(...)`: the id of the first newly reached goal, if any. At
      most one id is signalled per update. */
  method FindNewlyCompleted(goals: seq<WeeklyGoal>) returns (r: Option<string>)
    ensures r.None? <==> forall k :: 0 <= k < |goals| ==> !NewlyReached(goals[k])
    ensures r.Some? ==> exists k :: 0 <= k < |goals| && goals[k].id == r.value
                                    && NewlyReached(goals[k])
                                    && forall j :: 0 <= j < k ==> !NewlyReached(goals[j])
  {
    var i := 0;
    while i < |goals|
      invariant 0 <= i <= |goals|
      invariant forall j :: 0 <= j < i ==> !NewlyReached(goals[j])
    {
      if NewlyReached(goals[i]) {
        return Some(goals[i].id);
      }
      i := i + 1;
    }
    return None;
  }

  /** `Math.min(current, target)`, the count shown beside the target. */
  function DisplayedCount(g: WeeklyGoal): (n: int)
    ensures n <= g.target && n <= g.current
    ensures n == g.target || n == g.current
  {
    Min(g.current, g.target)
  }

  /** A JavaScript number as the bar's width can produce it. */
  datatype Percent = Finite(value: real) | NegativeInfinity | NotANumber

  /** `Math.min((current / target) * 100, 100)`, with JavaScript's division
      by zero: a positive count over zero is Infinity (so 100), zero over zero
      is NaN, a negative count over zero is -Infinity. */
  function ProgressPercent(g: WeeklyGoal): (p: Percent)
    ensures p.Finite? ==> p.value <= 100.0
    ensures g.target != 0 ==> p.Finite?
    ensures g.target > 0 && g.current >= 0 ==> p.Finite? && p.value >= 0.0
  {
    if g.target == 0 then
      if g.current > 0 then Finite(100.0)
      else if g.current == 0 then NotANumber
      else NegativeInfinity
    else
      var raw := (g.current as real / g.target as real) * 100.0;
      Finite(if raw <= 100.0 then raw else 100.0)
  }

  /** For a positive target, the bar is full exactly when the shown count
      has reached the target, which is when the goal counts as reached. */
  lemma FullBarIffReached(g: WeeklyGoal)
    requires g.target > 0
    ensures ProgressPercent(g) == Finite(100.0) <==> g.current >= g.target
    ensures DisplayedCount(g) == g.target <==> g.current >= g.target
  {
    var raw := (g.current as real / g.target as real) * 100.0;
    if g.current < g.target {
      assert g.current as real / g.target as real < 1.0;
      assert raw < 100.0;
    } else {
      assert g.current as real / g.target as real >= 1.0;
    }
  }
}
