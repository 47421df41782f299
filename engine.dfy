/**
 * The priority engine: a `PriorityAlgorithm` holds a strategy and its weights, scores tasks
 * against a dependency map, rejects batches with circular dependencies, ranks the rest, and picks
 * the top tasks with a reason for each.
 */
module Engine {
  import opened TaskModel
  import opened Strategies
  import opened SubScores
  import opened CycleDetection
  import opened StableSort
  import opened Reasons

  // ---------------------------------------------------------------- priority level

  datatype Level = Low | Medium | High | Critical

  function LevelRank(l: Level): nat {
    match l
    case Low => 0
    case Medium => 1
    case High => 2
    case Critical => 3
  }

  /** `get_priority_level`: every score falls in exactly one band, cut at 80, 65 and 45. */
  function GetPriorityLevel(score: real): (l: Level)
    ensures l == Critical <==> score >= 80.0
    ensures l == High <==> 65.0 <= score < 80.0
    ensures l == Medium <==> 45.0 <= score < 65.0
    ensures l == Low <==> score < 45.0
  {
    if score >= 80.0 then Critical
    else if score >= 65.0 then High
    else if score >= 45.0 then Medium
    else Low
  }

  /** A higher score never gets a lower level. */
  lemma LevelMonotone(a: real, b: real)
    requires a <= b
    ensures LevelRank(GetPriorityLevel(a)) <= LevelRank(GetPriorityLevel(b))
  {
  }

  // ---------------------------------------------------------------- round(x, 2)

  /** The nearest integer to `y`, ties to the even neighbour, as Python's `round` does. */
  function RoundHalfEven(y: real): (n: int)
    ensures y - 0.5 <= n as real <= y + 0.5
  {
    var f := y.Floor;
    var frac := y - f as real;
    if frac > 0.5 then f + 1
    else if frac < 0.5 then f
    else if f % 2 == 0 then f
    else f + 1
  }

  /** `round(x, 2)`, on exact reals: the nearest multiple of 0.01, ties to even. */
  function Round2(x: real): (r: real)
    ensures -0.005 <= r - x <= 0.005
    ensures (r * 100.0).Floor as real == r * 100.0
  {
    RoundHalfEven(x * 100.0) as real / 100.0
  }

  lemma RoundHalfEvenMonotone(y1: real, y2: real)
    requires y1 <= y2
    ensures RoundHalfEven(y1) <= RoundHalfEven(y2)
  {
    assert y1.Floor <= y2.Floor;
  }

  /** Rounding never reverses the order of two scores. */
  lemma Round2Monotone(x: real, y: real)
    requires x <= y
    ensures Round2(x) <= Round2(y)
  {
    RoundHalfEvenMonotone(x * 100.0, y * 100.0);
  }

  /** A value that is already a whole number of hundredths is left as it is. */
  lemma Round2OfCents(k: int)
    ensures Round2(k as real / 100.0) == k as real / 100.0
  {
    assert (k as real / 100.0) * 100.0 == k as real;
  }

  lemma Round2OfInt(n: int)
    ensures Round2(n as real) == n as real
  {
    Round2OfCents(n * 100);
    assert (n * 100) as real / 100.0 == n as real;
  }

  // ---------------------------------------------------------------- combining the sub-scores

  datatype Scores = Scores(urgency: real, importance: real, effort: real, dependencies: real)

  /** The four sub-scores `calculate_priority_score` computes for a task. */
  function SubScoresOf(t: Task, g: DependencyMap, today: int, log10: real -> real): Scores {
    Scores(UrgencyScore(DaysUntilDue(t, today)), ImportanceScore(t.importance), EffortScore(t.hours, log10),
           DependencyScore(t.id, g))
  }

  /** The weighted sum, before rounding. */
  function Combine(w: Weights, s: Scores): real {
    s.urgency * w.urgency + s.importance * w.importance + s.effort * w.effort + s.dependencies * w.dependencies
  }

  function Lowest(s: Scores): real {
    MinReal(MinReal(s.urgency, s.importance), MinReal(s.effort, s.dependencies))
  }

  function Highest(s: Scores): real {
    MaxReal(MaxReal(s.urgency, s.importance), MaxReal(s.effort, s.dependencies))
  }

  /**
   * With any of the strategy table's weight vectors, the weighted sum lies between the smallest
   * and the largest sub-score (each vector is non-negative and sums to 1).
   */
  lemma CombineBetween(strategy: string, s: Scores)
    ensures Lowest(s) <= Combine(GetWeights(strategy), s) <= Highest(s)
  {
    var w := GetWeights(strategy);
    var lo, hi := Lowest(s), Highest(s);
    assert lo <= s.urgency <= hi && lo <= s.importance <= hi && lo <= s.effort <= hi && lo <= s.dependencies <= hi;
    if w == SmartBalance {
      assert Combine(w, s) == s.urgency * 0.35 + s.importance * 0.30 + s.effort * 0.15 + s.dependencies * 0.20;
    } else if w == FastestWins {
      assert Combine(w, s) == s.urgency * 0.20 + s.importance * 0.20 + s.effort * 0.50 + s.dependencies * 0.10;
    } else if w == HighImpact {
      assert Combine(w, s) == s.urgency * 0.15 + s.importance * 0.60 + s.effort * 0.10 + s.dependencies * 0.15;
    } else {
      assert Combine(w, s) == s.urgency * 0.60 + s.importance * 0.20 + s.effort * 0.05 + s.dependencies * 0.15;
    }
  }

  /** For a task the input layer accepts, every sub-score lies in [10, 100]. */
  lemma SubScoresInRange(t: Task, g: DependencyMap, today: int, log10: real -> real)
    requires WellFormedTask(t)
    ensures 10.0 <= Lowest(SubScoresOf(t, g, today, log10))
    ensures Highest(SubScoresOf(t, g, today, log10)) <= 100.0
  {
  }

  // ---------------------------------------------------------------- scored tasks

  /** `score_breakdown`: the rounded sub-scores and the weights used. */
  datatype Breakdown = Breakdown(urgency: real, importance: real, effort: real, dependencies: real, weights: Weights)

  /** An analysed task: the task's own fields, its `priority_score`, `priority_level` and breakdown. */
  datatype ScoredTask = ScoredTask(task: Task, score: real, level: Level, breakdown: Breakdown)

  /** A suggested task with the clauses of its reason and the reason's text. */
  datatype Suggestion = Suggestion(scored: ScoredTask, clauses: seq<Clause>, reason: string)

  /** What `analyze_tasks` and `suggest_top_tasks` give back: a value, or the circular-dependency error. */
  datatype Analysis<T> = Ok(value: T) | CircularDependency(cycles: seq<seq<int>>)

  function ScoreOf(s: ScoredTask): real { s.score }

  function TaskOf(s: ScoredTask): Task { s.task }

  /** Python's `[:count]` end index for a list of length `n`; a negative count counts from the end. */
  function SliceEnd(n: nat, count: int): (e: nat)
    ensures e <= n
    ensures count >= 0 ==> e == Min(count, n)
    ensures count < 0 ==> e == Max(0, n + count)
  {
    if count >= 0 then Min(count, n) else Max(0, n + count)
  }

  // ---------------------------------------------------------------- the dependency map

  /**
   * The dictionary the first loop of `analyze_tasks` builds: each task with a truthy id and a
   * non-empty dependency list sets its entry, a later task overwriting an earlier one.
   */
  function DependencyMapOf(tasks: seq<Task>): DependencyMap {
    if tasks == [] then map[]
    else
      var g := DependencyMapOf(tasks[..|tasks| - 1]);
      var t := tasks[|tasks| - 1];
      if EntersDependencyMap(t) then g[t.id.value := t.deps] else g
  }

  /** The order the dictionary's keys iterate in: first insertion, not last update. */
  function KeyOrderOf(tasks: seq<Task>): seq<int> {
    if tasks == [] then []
    else
      var keys := KeyOrderOf(tasks[..|tasks| - 1]);
      var t := tasks[|tasks| - 1];
      if EntersDependencyMap(t) && t.id.value !in DependencyMapOf(tasks[..|tasks| - 1]) then keys + [t.id.value]
      else keys
  }

  /** The key order lists exactly the map's keys. */
  lemma {:induction false} KeyOrderIsKeys(tasks: seq<Task>)
    ensures forall k :: k in KeyOrderOf(tasks) <==> k in DependencyMapOf(tasks)
  {
    if tasks != [] {
      KeyOrderIsKeys(tasks[..|tasks| - 1]);
    }
  }

  /**
   * An id is a key exactly when some task with that id enters the map, and its list is the one of
   * the last such task.
   */
  lemma {:induction false} DependencyMapEntries(tasks: seq<Task>, k: int)
    ensures k in DependencyMapOf(tasks) <==>
      exists i :: 0 <= i < |tasks| && EntersDependencyMap(tasks[i]) && tasks[i].id.value == k
    ensures k in DependencyMapOf(tasks) ==>
      exists i :: && 0 <= i < |tasks| && EntersDependencyMap(tasks[i]) && tasks[i].id.value == k
                  && DependencyMapOf(tasks)[k] == tasks[i].deps
                  && forall j :: i < j < |tasks| && EntersDependencyMap(tasks[j]) ==> tasks[j].id.value != k
  {
    if tasks != [] {
      var prefix := tasks[..|tasks| - 1];
      var t := tasks[|tasks| - 1];
      DependencyMapEntries(prefix, k);
      forall i | 0 <= i < |prefix| ensures prefix[i] == tasks[i] { }
      if EntersDependencyMap(t) && t.id.value == k {
        assert EntersDependencyMap(tasks[|tasks| - 1]);
      } else if k in DependencyMapOf(prefix) {
        var i :| && 0 <= i < |prefix| && EntersDependencyMap(prefix[i]) && prefix[i].id.value == k
                 && DependencyMapOf(prefix)[k] == prefix[i].deps
                 && forall j :: i < j < |prefix| && EntersDependencyMap(prefix[j]) ==> prefix[j].id.value != k;
        assert EntersDependencyMap(tasks[i]) && tasks[i].id.value == k;
      }
    }
  }

  /** With unique ids, every task that enters the map finds its own list there. */
  lemma DependencyMapOfUnique(tasks: seq<Task>, i: int)
    requires UniqueIds(tasks)
    requires 0 <= i < |tasks| && EntersDependencyMap(tasks[i])
    ensures tasks[i].id.value in DependencyMapOf(tasks)
    ensures DependencyMapOf(tasks)[tasks[i].id.value] == tasks[i].deps
  {
    var k := tasks[i].id.value;
    DependencyMapEntries(tasks, k);
    var j :| && 0 <= j < |tasks| && EntersDependencyMap(tasks[j]) && tasks[j].id.value == k
             && DependencyMapOf(tasks)[k] == tasks[j].deps
             && forall m :: j < m < |tasks| && EntersDependencyMap(tasks[m]) ==> tasks[m].id.value != k;
    assert tasks[i].id.Some? && tasks[j].id.Some?;
    assert i == j;
  }

  /**
   * `breakdown['dependencies'] > 70`: a task earns "blocks other tasks" when at least three
   * dependency-map entries list its id, or at least five when it has dependencies of its own.
   */
  lemma BlocksOthersThreshold(taskId: Option<int>, g: DependencyMap)
    ensures DependencyScore(taskId, g) > 70.0 <==>
      (if HasDependencies(taskId, g) then BlockedCount(taskId, g) >= 5 else BlockedCount(taskId, g) >= 3)
  {
  }

  // ---------------------------------------------------------------- the engine

  class PriorityAlgorithm {
    const strategy: string
    const weights: Weights

    /** `self.weights` is what the resolver gives for `self.strategy`. */
    predicate Valid() {
      weights == GetWeights(strategy)
    }

    /** `PriorityAlgorithm(strategy)`; the Python default is "smart_balance". */
    constructor (strategy: string := "smart_balance")
      ensures this.strategy == strategy && Valid()
    {
      this.strategy := strategy;
      this.weights := GetWeights(strategy);
    }

    /**
     * `calculate_priority_score`: the weighted sum of the four sub-scores rounded to two places,
     * and the breakdown of the rounded sub-scores. Rounding moves each value by at most 0.005 and
     * leaves the whole-number sub-scores (importance, dependencies) unchanged.
     */
    function CalculatePriorityScore(t: Task, g: DependencyMap, today: int, log10: real -> real): (r: (real, Breakdown))
      ensures var s := SubScoresOf(t, g, today, log10);
        && -0.005 <= r.0 - Combine(weights, s) <= 0.005
        && r.1.weights == weights
        && r.1.importance == s.importance
        && r.1.dependencies == s.dependencies
        && -0.005 <= r.1.urgency - s.urgency <= 0.005
        && -0.005 <= r.1.effort - s.effort <= 0.005
    {
      var s := SubScoresOf(t, g, today, log10);
      Round2OfInt(t.importance * 10);
      var deps := 50 + Min(10 * BlockedCount(t.id, g), 50) - (if HasDependencies(t.id, g) then 20 else 0);
      Round2OfInt(deps);
      (Round2(Combine(weights, s)),
       Breakdown(Round2(s.urgency), Round2(s.importance), Round2(s.effort), Round2(s.dependencies), weights))
    }

    /** The analysed-task record for one task: its fields, score, level and breakdown. */
    function ScoreTask(t: Task, g: DependencyMap, today: int, log10: real -> real): (r: ScoredTask)
      ensures r.task == t
      ensures r.score == CalculatePriorityScore(t, g, today, log10).0
      ensures r.level == GetPriorityLevel(r.score)
      ensures r.breakdown == CalculatePriorityScore(t, g, today, log10).1
      ensures r.breakdown.weights == weights
      ensures r.breakdown.dependencies == SubScoresOf(t, g, today, log10).dependencies
    {
      var (score, breakdown) := CalculatePriorityScore(t, g, today, log10);
      ScoredTask(t, score, GetPriorityLevel(score), breakdown)
    }

    /** The second loop of `analyze_tasks`: every task scored, in input order. */
    function Annotate(tasks: seq<Task>, g: DependencyMap, today: int, log10: real -> real): (r: seq<ScoredTask>)
      ensures |r| == |tasks|
      ensures forall i :: 0 <= i < |tasks| ==> r[i] == ScoreTask(tasks[i], g, today, log10)
    {
      if tasks == [] then []
      else Annotate(tasks[..|tasks| - 1], g, today, log10) + [ScoreTask(tasks[|tasks| - 1], g, today, log10)]
    }

    /** What `analyze_tasks` returns when the batch has no cycle. */
    function RankedTasks(tasks: seq<Task>, today: int, log10: real -> real): seq<ScoredTask> {
      SortDesc(Annotate(tasks, DependencyMapOf(tasks), today, log10), ScoreOf)
    }

    /**
     * `analyze_tasks`. The batch is rejected exactly when its dependency map has a cycle, and then
     * the error carries the cycles found, each a genuine cycle. Otherwise every task comes back
     * scored exactly once, in non-increasing score order, tasks of equal score in input order.
     */
    method AnalyzeTasks(tasks: seq<Task>, today: int, log10: real -> real) returns (result: Analysis<seq<ScoredTask>>)
      ensures result.CircularDependency? <==> !Acyclic(DependencyMapOf(tasks))
      ensures result.CircularDependency? ==>
        && |result.cycles| > 0
        && forall c :: c in result.cycles ==> IsCycle(DependencyMapOf(tasks), c) && Distinct(c)
      ensures result.Ok? ==> result.value == RankedTasks(tasks, today, log10)
      ensures result.Ok? ==>
        && |result.value| == |tasks|
        && multiset(Map(result.value, TaskOf)) == multiset(tasks)
        && SortedDesc(result.value, ScoreOf)
        && (forall v :: Filter(result.value, ScoreOf, v)
                        == Filter(Annotate(tasks, DependencyMapOf(tasks), today, log10), ScoreOf, v))
        && (forall x :: x in result.value ==> x == ScoreTask(x.task, DependencyMapOf(tasks), today, log10))
    {
      // the Python dict, with the insertion order of its keys beside it
      var dependencyMap: DependencyMap := map[];
      var keys: seq<int> := [];
      for i := 0 to |tasks|
        invariant dependencyMap == DependencyMapOf(tasks[..i])
        invariant keys == KeyOrderOf(tasks[..i])
      {
        var t := tasks[i];
        assert tasks[..i + 1][..i] == tasks[..i];
        if t.id.Some? && t.id.value != 0 && |t.deps| > 0 {
          if t.id.value !in dependencyMap {
            keys := keys + [t.id.value];
          }
          dependencyMap := dependencyMap[t.id.value := t.deps];
        }
      }
      assert tasks[..|tasks|] == tasks;
      KeyOrderIsKeys(tasks);

      var cycles := DetectCircularDependencies(dependencyMap, keys);
      if cycles != [] {
        return CircularDependency(cycles);
      }

      var analyzed: seq<ScoredTask> := [];
      for i := 0 to |tasks|
        invariant analyzed == Annotate(tasks[..i], dependencyMap, today, log10)
      {
        assert tasks[..i + 1][..i] == tasks[..i];
        analyzed := analyzed + [ScoreTask(tasks[i], dependencyMap, today, log10)];
      }
      assert tasks[..|tasks|] == tasks;

      result := Ok(SortDesc(analyzed, ScoreOf));
      RankedTasksFacts(this, tasks, today, log10);
    }

    /**
     * `_generate_reason`: the clauses picked for a task, in the order they are appended, and the
     * sentence they make.
     */
    method GenerateReason(task: ScoredTask, today: int) returns (clauses: seq<Clause>, reason: string)
      ensures Explains(strategy, DaysUntilDue(task.task, today), task.task.importance, task.task.hours,
                       task.breakdown.dependencies, clauses)
      ensures |clauses| >= 1
      ensures reason == RenderReason(clauses)
      ensures reason[..|ReasonPrefix|] == ReasonPrefix
    {
      var daysUntil := DaysUntilDue(task.task, today);
      var importance := task.task.importance;
      var hours := task.task.hours;
      var dependencies := task.breakdown.dependencies;
      ghost var expected := ReasonClauses(strategy, daysUntil, importance, hours, dependencies);
      ReasonClausesExplains(strategy, daysUntil, importance, hours, dependencies);
      ExplainsShape(strategy, daysUntil, importance, hours, dependencies, expected);
      // each block appends what `Block` says, so after block k the list is `Blocks(.., k + 1)`,
      // and the fallback makes it `ReasonClauses`
      clauses := [];
      if daysUntil < 0 {
        clauses := clauses + [Overdue(-daysUntil)];
      } else if daysUntil == 0 {
        clauses := clauses + [DueToday];
      } else if daysUntil <= 3 {
        clauses := clauses + [DueIn(daysUntil)];
      }
      assert clauses == Blocks(strategy, daysUntil, importance, hours, dependencies, 1);
      if importance >= 8 {
        clauses := clauses + [HighImportance];
      }
      assert clauses == Blocks(strategy, daysUntil, importance, hours, dependencies, 2);
      if hours <= 2.0 {
        clauses := clauses + [QuickWin];
      }
      assert clauses == Blocks(strategy, daysUntil, importance, hours, dependencies, 3);
      if dependencies > 70.0 {
        clauses := clauses + [BlocksOthers];
      }
      assert clauses == Blocks(strategy, daysUntil, importance, hours, dependencies, 4);
      if strategy == "fastest_wins" && hours <= 1.0 {
        clauses := clauses + [FastToComplete];
      } else if strategy == "high_impact" && importance >= 8 {
        clauses := clauses + [MaximumImpact];
      } else if strategy == "deadline_driven" && daysUntil <= 2 {
        clauses := clauses + [UrgentDeadline];
      }
      assert clauses == Blocks(strategy, daysUntil, importance, hours, dependencies, 5);
      if clauses == [] {
        clauses := clauses + [Balanced];
      }
      assert clauses == expected;
      reason := RenderReason(clauses);
    }

    /** `s` suggests `scored`: it carries that record, the clauses that explain it and their sentence. */
    ghost predicate SuggestionFor(s: Suggestion, scored: ScoredTask, today: int)
      reads this
    {
      && s.scored == scored
      && Explains(strategy, DaysUntilDue(scored.task, today), scored.task.importance,
                  scored.task.hours, scored.breakdown.dependencies, s.clauses)
      && s.reason == RenderReason(s.clauses)
    }

    /**
     * `suggest_top_tasks`: the first `count` analysed tasks (Python slice semantics), in ranking
     * order, each with its reason; the circular-dependency error is passed on unchanged.
     */
    method SuggestTopTasks(tasks: seq<Task>, count: int := 3, today: int, log10: real -> real)
      returns (result: Analysis<seq<Suggestion>>)
      ensures result.CircularDependency? <==> !Acyclic(DependencyMapOf(tasks))
      ensures result.CircularDependency? ==>
        && |result.cycles| > 0
        && forall c :: c in result.cycles ==> IsCycle(DependencyMapOf(tasks), c) && Distinct(c)
      ensures result.Ok? ==>
        && |result.value| == SliceEnd(|tasks|, count)
        && forall i :: 0 <= i < |result.value| ==>
             var s := result.value[i];
             && s.scored == RankedTasks(tasks, today, log10)[i]
             && Explains(strategy, DaysUntilDue(s.scored.task, today), s.scored.task.importance,
                         s.scored.task.hours, s.scored.breakdown.dependencies, s.clauses)
             && s.reason == RenderReason(s.clauses)
    {
      var analyzed := AnalyzeTasks(tasks, today, log10);
      if analyzed.CircularDependency? {
        return CircularDependency(analyzed.cycles);
      }
      var ranked := analyzed.value;
      var top := ranked[..SliceEnd(|ranked|, count)];
      var suggestions := AttachReasons(top, today);
      result := Ok(suggestions);
    }

    /** The loop of `suggest_top_tasks`: each selected record, in order, gets its reason. */
    method AttachReasons(top: seq<ScoredTask>, today: int) returns (suggestions: seq<Suggestion>)
      ensures |suggestions| == |top|
      ensures forall j :: 0 <= j < |top| ==> SuggestionFor(suggestions[j], top[j], today)
    {
      suggestions := [];
      for i := 0 to |top|
        invariant |suggestions| == i
        invariant forall j :: 0 <= j < i ==> SuggestionFor(suggestions[j], top[j], today)
      {
        var clauses, reason := GenerateReason(top[i], today);
        suggestions := suggestions + [Suggestion(top[i], clauses, reason)];
      }
    }
  }

  /**
   * The ranking is a stable descending sort of the scored tasks: as many as the input, the same
   * tasks, sorted by score, ties in input order, and each one the scoring of its own task.
   */
  lemma RankedTasksFacts(alg: PriorityAlgorithm, tasks: seq<Task>, today: int, log10: real -> real)
    ensures var g := DependencyMapOf(tasks);
      var ranked := alg.RankedTasks(tasks, today, log10);
      && |ranked| == |tasks|
      && multiset(Map(ranked, TaskOf)) == multiset(tasks)
      && SortedDesc(ranked, ScoreOf)
      && (forall v :: Filter(ranked, ScoreOf, v) == Filter(alg.Annotate(tasks, g, today, log10), ScoreOf, v))
      && (forall x :: x in ranked ==> x == alg.ScoreTask(x.task, g, today, log10))
  {
    var g := DependencyMapOf(tasks);
    var annotated := alg.Annotate(tasks, g, today, log10);
    var ranked := alg.RankedTasks(tasks, today, log10);
    SortDescSorted(annotated, ScoreOf);
    SortDescPermutation(annotated, ScoreOf);
    SortDescMapPermutation(annotated, ScoreOf, TaskOf);
    forall v ensures Filter(ranked, ScoreOf, v) == Filter(annotated, ScoreOf, v) {
      SortDescStable(annotated, ScoreOf, v);
    }
    assert Map(annotated, TaskOf) == tasks;
    forall x | x in ranked ensures x == alg.ScoreTask(x.task, g, today, log10) {
      assert x in multiset(annotated);
    }
  }

  /** The priority score lies between the rounded smallest and largest sub-score. */
  lemma ScoreWithinSubScores(alg: PriorityAlgorithm, t: Task, g: DependencyMap, today: int, log10: real -> real)
    requires alg.Valid()
    ensures var s := SubScoresOf(t, g, today, log10);
      Round2(Lowest(s)) <= alg.CalculatePriorityScore(t, g, today, log10).0 <= Round2(Highest(s))
  {
    var s := SubScoresOf(t, g, today, log10);
    CombineBetween(alg.strategy, s);
    Round2Monotone(Lowest(s), Combine(alg.weights, s));
    Round2Monotone(Combine(alg.weights, s), Highest(s));
  }

  /** For a task the input layer accepts, the priority score lies in [10, 100]. */
  lemma ScoreInRange(alg: PriorityAlgorithm, t: Task, g: DependencyMap, today: int, log10: real -> real)
    requires alg.Valid() && WellFormedTask(t)
    ensures 10.0 <= alg.CalculatePriorityScore(t, g, today, log10).0 <= 100.0
  {
    var s := SubScoresOf(t, g, today, log10);
    ScoreWithinSubScores(alg, t, g, today, log10);
    SubScoresInRange(t, g, today, log10);
    Round2Monotone(10.0, Lowest(s));
    Round2Monotone(Highest(s), 100.0);
    Round2OfInt(10);
    Round2OfInt(100);
  }

  /** A higher weighted sum never gives a lower priority level, rounding included. */
  lemma LevelFollowsScore(alg: PriorityAlgorithm, a: Task, b: Task, g: DependencyMap, today: int, log10: real -> real)
    requires Combine(alg.weights, SubScoresOf(a, g, today, log10)) <= Combine(alg.weights, SubScoresOf(b, g, today, log10))
    ensures LevelRank(alg.ScoreTask(a, g, today, log10).level) <= LevelRank(alg.ScoreTask(b, g, today, log10).level)
  {
    var sa, sb := alg.ScoreTask(a, g, today, log10), alg.ScoreTask(b, g, today, log10);
    Round2Monotone(Combine(alg.weights, SubScoresOf(a, g, today, log10)), Combine(alg.weights, SubScoresOf(b, g, today, log10)));
    LevelMonotone(sa.score, sb.score);
  }
}
