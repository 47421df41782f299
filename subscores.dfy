/** The four sub-score calculators: urgency, importance, effort and dependency standing. */
module SubScores {
  import opened TaskModel

  function Min(a: int, b: int): int { if a <= b then a else b }
  function Max(a: int, b: int): int { if a >= b then a else b }
  function MinReal(a: real, b: real): real { if a <= b then a else b }
  function MaxReal(a: real, b: real): real { if a >= b then a else b }

  // ---------------------------------------------------------------- urgency

  /**
   * `calculate_urgency_score`, with `(due_date - today).days` passed in as `daysUntilDue`.
   * The overdue penalty is computed but the `min(100, ...)` cap discards it.
   */
  function UrgencyScore(daysUntilDue: int): (r: real)
    ensures 10.0 <= r <= 100.0
    ensures daysUntilDue < 0 ==> r == 100.0
  {
    if daysUntilDue < 0 then
      var overduePenalty := Min(-daysUntilDue * 2, 50);
      MinReal(100.0, (100 + overduePenalty) as real)
    else if daysUntilDue == 0 then 95.0
    else if daysUntilDue <= 7 then (90 - daysUntilDue * 4) as real
    else if daysUntilDue <= 14 then (60 - (daysUntilDue - 7) * 2) as real
    else if daysUntilDue <= 30 then (40 - (daysUntilDue - 14)) as real
    else MaxReal(10.0, 40.0 - (daysUntilDue - 30) as real * 0.5)
  }

  /**
   * Urgency never rises as the due date moves further away, on each side of the 30/31 day edge:
   * up to 30 days it falls from 100 to 24, and from 31 days on it falls from 39.5 to the floor 10.
   */
  lemma UrgencyNonIncreasing(d1: int, d2: int)
    requires d1 <= d2
    requires d2 <= 30 || 31 <= d1
    ensures UrgencyScore(d1) >= UrgencyScore(d2)
  {
  }

  /** The last band restarts at 40: urgency is not monotone across the 30/31 day edge. */
  lemma UrgencyRisesAfterThirtyDays()
    ensures UrgencyScore(30) == 24.0 && UrgencyScore(31) == 39.5
    ensures UrgencyScore(30) < UrgencyScore(31)
  {
  }

  // ---------------------------------------------------------------- importance

  /** `calculate_importance_score`: the 1..10 rating scaled to 10..100. */
  function ImportanceScore(importance: int): (r: real)
    ensures 1 <= importance <= 10 ==> 10.0 <= r <= 100.0
    ensures r == 10.0 * importance as real
  {
    (importance * 10) as real
  }

  /** A higher rating always gives a strictly higher importance score, and conversely. */
  lemma ImportanceOrder(a: int, b: int)
    ensures a < b <==> ImportanceScore(a) < ImportanceScore(b)
  {
  }

  // ---------------------------------------------------------------- effort

  /**
   * What the model requires of the `math.log10` it is given: strictly increasing on the positive
   * reals, log10(10) = 1, and log10(2) > 0.3 (log10 2 = 0.30102...).
   */
  ghost predicate IsLog10(log10: real -> real) {
    && (forall x, y :: 0.0 < x < y ==> log10(x) < log10(y))
    && log10(10.0) == 1.0
    && log10(2.0) > 0.3
  }

  /**
   * `calculate_effort_score`: linear below one hour, logarithmic and clamped to [10, 100] from one
   * hour on. The logarithm is a parameter, so no property of it is needed for these bounds.
   */
  function EffortScore(hours: real, log10: real -> real): (r: real)
    ensures 0.0 <= hours < 1.0 ==> 90.0 < r <= 100.0
    ensures 0.0 < hours < 1.0 ==> r < 100.0
    ensures hours >= 1.0 ==> 10.0 <= r <= 100.0
  {
    if hours < 1.0 then
      90.0 + (1.0 - hours) * 10.0
    else
      var score := 100.0 - log10(hours + 1.0) * 35.0;
      MaxReal(10.0, MinReal(100.0, score))
  }

  /** Below one hour the effort score strictly rewards shorter tasks. */
  lemma EffortStrictlyDecreasingBelowOneHour(h1: real, h2: real, log10: real -> real)
    requires h1 < h2 < 1.0
    ensures EffortScore(h1, log10) > EffortScore(h2, log10)
  {
  }

  /** A longer task never scores higher on effort, across the one-hour edge as well. */
  lemma EffortNonIncreasing(h1: real, h2: real, log10: real -> real)
    requires IsLog10(log10)
    requires 0.0 < h1 <= h2
    ensures EffortScore(h1, log10) >= EffortScore(h2, log10)
  {
    if h2 >= 1.0 {
      if h2 > 1.0 {
        assert log10(2.0) < log10(h2 + 1.0);
      }
      if h1 >= 1.0 && h1 < h2 {
        assert log10(h1 + 1.0) < log10(h2 + 1.0);
      }
    }
  }

  /** A half-hour task scores above a ten-hour task. */
  lemma QuickTaskBeatsLongTask(log10: real -> real)
    requires IsLog10(log10)
    ensures EffortScore(0.5, log10) > EffortScore(10.0, log10)
  {
    assert log10(10.0) < log10(11.0);
  }

  // ---------------------------------------------------------------- dependency standing

  /**
   * The number of dependency-map entries whose list contains `taskId`
   * (`sum(1 for deps in dependency_map.values() if task_id in deps)`); an absent id is in no list.
   */
  function BlockedCount(taskId: Option<int>, g: DependencyMap): nat {
    if taskId.None? then 0 else |set k | k in g && taskId.value in g[k]|
  }

  /** `task_id in dependency_map and len(dependency_map[task_id]) > 0` */
  predicate HasDependencies(taskId: Option<int>, g: DependencyMap) {
    taskId.Some? && taskId.value in g && |g[taskId.value]| > 0
  }

  /**
   * `calculate_dependency_score`: 50, plus 10 per task this one blocks up to 50, minus 20 when it
   * depends on anything, clamped to [0, 100]. The clamp never fires: the value stays in [30, 100].
   */
  function DependencyScore(taskId: Option<int>, g: DependencyMap): (r: real)
    ensures 30.0 <= r <= 100.0
    ensures r == (50 + Min(10 * BlockedCount(taskId, g), 50) - (if HasDependencies(taskId, g) then 20 else 0)) as real
  {
    var blockedCount := BlockedCount(taskId, g);
    var score := 50 + Min(blockedCount * 10, 50);
    var score' := if HasDependencies(taskId, g) then score - 20 else score;
    Max(0, Min(100, score')) as real
  }

  /**
   * Blocking more tasks never lowers the score; depending on other tasks costs exactly 20,
   * however many dependencies there are.
   */
  lemma DependencyScoreOrder(a: Option<int>, ga: DependencyMap, b: Option<int>, gb: DependencyMap)
    requires BlockedCount(a, ga) <= BlockedCount(b, gb)
    requires HasDependencies(a, ga) == HasDependencies(b, gb)
    ensures DependencyScore(a, ga) <= DependencyScore(b, gb)
  {
  }
}
