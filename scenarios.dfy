/**
 * The engine's unit tests, each stated as a fact about the model for every day `today` and every
 * logarithm with the properties of `math.log10`.
 */
module Scenarios {
  import opened TaskModel
  import opened Strategies
  import opened SubScores
  import opened CycleDetection
  import opened StableSort
  import opened Reasons
  import opened Engine

  // ---------------------------------------------------------------- sub-scores

  /** Five days overdue scores at least 100, due today 95, thirty days out below 50. */
  lemma UrgencyExamples()
    ensures UrgencyScore(-5) >= 100.0
    ensures UrgencyScore(0) == 95.0
    ensures UrgencyScore(30) < 50.0
  {
  }

  /** The rating converts to ten times itself. */
  lemma ImportanceExamples()
    ensures ImportanceScore(1) == 10.0
    ensures ImportanceScore(5) == 50.0
    ensures ImportanceScore(10) == 100.0
  {
  }

  /** The map has no entries, so no task blocks another or depends on one. */
  lemma EmptyMapScore(taskId: Option<int>)
    ensures BlockedCount(taskId, map[]) == 0
    ensures DependencyScore(taskId, map[]) == 50.0
  {
  }

  /** Task 1 blocks tasks 2 and 3 and depends on nothing: its dependency score is 70. */
  lemma BlockingExample()
    ensures DependencyScore(Some(1), map[2 := [1], 3 := [1]]) == 70.0
  {
    var g: DependencyMap := map[2 := [1], 3 := [1]];
    assert (set k | k in g && 1 in g[k]) == {2, 3};
  }

  // ---------------------------------------------------------------- cycle detection

  /** Tasks 1 and 2 depend on each other: [1, 2] is a cycle, so the map is not acyclic. */
  lemma MutualDependencyExample()
    ensures IsCycle(map[1 := [2], 2 := [1]], [1, 2])
    ensures !Acyclic(map[1 := [2], 2 := [1]])
  {
    assert IsCycle(map[1 := [2], 2 := [1]], [1, 2]);
  }

  /** The chain 1 -> 2 -> 3 has no cycle: ranking 3, 2, 1 by 0, 1, 2 makes every edge go down. */
  lemma ChainExample()
    ensures Acyclic(map[1 := [2], 2 := [3]])
  {
    var g: DependencyMap := map[1 := [2], 2 := [3]];
    var rank: map<int, nat> := map[3 := 0, 2 := 1, 1 := 2];
    assert RankDecreases(g, rank) by {
      forall n, s | n in rank && s in Successors(g, n) ensures s in rank && rank[s] < rank[n] {
        assert n == 1 || n == 2 || n == 3;
      }
    }
    RankedIsAcyclic(g, rank);
  }

  /** On a path of the self-loop map, the second node (if any) is the task again. */
  lemma SelfLoopSecond(id: int, c: seq<int>)
    requires IsPath(map[id := [id]], c)
    ensures |c| > 1 ==> c[1] == id
  {
    if |c| > 1 {
      assert Edge(map[id := [id]], c[0], c[1]);
    }
  }

  /** A task that depends on itself: the map has a cycle, and the only cycle without repeats is [id]. */
  lemma SelfDependencyExample(id: int)
    ensures !Acyclic(map[id := [id]])
    ensures forall c :: IsCycle(map[id := [id]], c) && Distinct(c) ==> c == [id]
  {
    var g: DependencyMap := map[id := [id]];
    assert IsCycle(g, [id]);
    forall c | IsCycle(g, c) && Distinct(c) ensures c == [id] {
      // the edge back to the start gives c[0] == id; a second element would be id again
      assert Edge(g, c[|c| - 1], c[0]);
      SelfLoopSecond(id, c);
      assert |c| == 1;
    }
  }

  /**
   * A self-dependency inside a larger map, where task 1 also depends on task 2 and task 2 on
   * task 1: the detector still reports `[1]`, and never `[2]`, which lists no edge to itself.
   */
  method SelfDependencyInLargerMap() returns (cycles: seq<seq<int>>)
    ensures [1] in cycles
    ensures [2] !in cycles
  {
    var g: DependencyMap := map[1 := [1, 2], 2 := [1]];
    assert Edge(g, 1, 1) && !Edge(g, 2, 2);
    cycles := DetectCircularDependencies(g, [1, 2]);
  }

  /** A map without entries has no edges, so no cycle. */
  lemma EmptyMapAcyclic()
    ensures Acyclic(map[])
  {
    RankedIsAcyclic(map[], map[]);
  }

  // ---------------------------------------------------------------- ranking and suggestions

  /** Tasks without dependencies contribute nothing to the dependency map. */
  lemma NoDependenciesNoMap(tasks: seq<Task>)
    requires forall i :: 0 <= i < |tasks| ==> tasks[i].deps == []
    ensures DependencyMapOf(tasks) == map[]
  {
    if tasks != [] {
      NoDependenciesNoMap(tasks[..|tasks| - 1]);
    }
  }

  /** Effort of a one-hour task: 100 - 35 log10(2), which lies strictly between 65 and 89.5. */
  lemma OneHourEffort(log10: real -> real)
    requires IsLog10(log10)
    ensures 65.0 < EffortScore(1.0, log10) < 89.5
  {
    assert log10(2.0) < log10(10.0);
  }

  /**
   * Two tasks are ranked by score, the first one ahead when the scores are equal: a two-element
   * stable descending sort.
   */
  lemma RankTwo(alg: PriorityAlgorithm, x: Task, y: Task, today: int, log10: real -> real)
    ensures var g := DependencyMapOf([x, y]);
      var a, b := alg.ScoreTask(x, g, today, log10), alg.ScoreTask(y, g, today, log10);
      alg.RankedTasks([x, y], today, log10) == if a.score >= b.score then [a, b] else [b, a]
  {
    var g := DependencyMapOf([x, y]);
    var a, b := alg.ScoreTask(x, g, today, log10), alg.ScoreTask(y, g, today, log10);
    assert alg.Annotate([x, y], g, today, log10) == [a, b];
    assert [a, b][1..] == [b] && [b][1..] == [];
    assert SortDesc([a, b], ScoreOf) == Insert(a, [b], ScoreOf);
  }

  /** Under smart_balance, a task with no dependency entry scores its weighted sum, to within rounding. */
  lemma SmartBalanceScore(alg: PriorityAlgorithm, t: Task, today: int, log10: real -> real)
    requires alg.Valid() && alg.strategy == "smart_balance"
    ensures var s := SubScoresOf(t, map[], today, log10);
      var w := 0.35 * s.urgency + 0.30 * s.importance + 0.15 * s.effort + 0.20 * 50.0;
      -0.005 <= alg.ScoreTask(t, map[], today, log10).score - w <= 0.005
  {
    EmptyMapScore(t.id);
  }

  /** The low-priority task of the sorting test: urgency 24, importance 30, effort below 65. */
  lemma LowTaskScore(alg: PriorityAlgorithm, today: int, log10: real -> real)
    requires alg.Valid() && alg.strategy == "smart_balance" && IsLog10(log10)
    ensures alg.ScoreTask(Task(Some(1), "Low priority task", today + 30, 10.0, 3, []), map[], today, log10).score < 37.2
  {
    assert log10(10.0) < log10(11.0);
    SmartBalanceScore(alg, Task(Some(1), "Low priority task", today + 30, 10.0, 3, []), today, log10);
  }

  /** The high-priority task of the sorting test: urgency 95, importance 100, effort above 65. */
  lemma HighTaskScore(alg: PriorityAlgorithm, today: int, log10: real -> real)
    requires alg.Valid() && alg.strategy == "smart_balance" && IsLog10(log10)
    ensures alg.ScoreTask(Task(Some(2), "High priority task", today, 1.0, 10, []), map[], today, log10).score > 82.9
  {
    OneHourEffort(log10);
    SmartBalanceScore(alg, Task(Some(2), "High priority task", today, 1.0, 10, []), today, log10);
  }

  /**
   * The sorting test: a low-priority task due in 30 days and a high-priority task due today. The
   * batch has no cycle, and the high-priority task (id 2) comes first with the strictly higher score.
   */
  lemma SortingExample(alg: PriorityAlgorithm, today: int, log10: real -> real)
    requires alg.Valid() && alg.strategy == "smart_balance" && IsLog10(log10)
    ensures var tasks := [Task(Some(1), "Low priority task", today + 30, 10.0, 3, []),
                          Task(Some(2), "High priority task", today, 1.0, 10, [])];
      var ranked := alg.RankedTasks(tasks, today, log10);
      && Acyclic(DependencyMapOf(tasks))
      && |ranked| == 2
      && ranked[0].task.id == Some(2)
      && ranked[0].score > ranked[1].score
  {
    var low := Task(Some(1), "Low priority task", today + 30, 10.0, 3, []);
    var high := Task(Some(2), "High priority task", today, 1.0, 10, []);
    NoDependenciesNoMap([low, high]);
    EmptyMapAcyclic();
    LowTaskScore(alg, today, log10);
    HighTaskScore(alg, today, log10);
    RankTwo(alg, low, high, today, log10);
  }

  /** A single task with no dependency list is analysed into a single record. */
  lemma MissingDependenciesExample(alg: PriorityAlgorithm, today: int, log10: real -> real)
    ensures var tasks := [Task(Some(1), "Task without dependencies", today + 5, 2.0, 7, [])];
      Acyclic(DependencyMapOf(tasks)) && |alg.RankedTasks(tasks, today, log10)| == 1
  {
    var tasks := [Task(Some(1), "Task without dependencies", today + 5, 2.0, 7, [])];
    NoDependenciesNoMap(tasks);
    EmptyMapAcyclic();
    RankedTasksFacts(alg, tasks, today, log10);
  }

  /** The first task of the suggestion test: urgency 95, importance 80, effort above 65. */
  lemma DueTodayTaskScore(alg: PriorityAlgorithm, today: int, log10: real -> real)
    requires alg.Valid() && alg.strategy == "smart_balance" && IsLog10(log10)
    ensures alg.ScoreTask(Task(Some(1), "Task 1", today, 1.0, 8, []), map[], today, log10).score > 76.9
  {
    OneHourEffort(log10);
    SmartBalanceScore(alg, Task(Some(1), "Task 1", today, 1.0, 8, []), today, log10);
  }

  /** The second task of the suggestion test: urgency 54, importance 50, effort below 89.5. */
  lemma TenDaysTaskScore(alg: PriorityAlgorithm, today: int, log10: real -> real)
    requires alg.Valid() && alg.strategy == "smart_balance" && IsLog10(log10)
    ensures alg.ScoreTask(Task(Some(2), "Task 2", today + 10, 5.0, 5, []), map[], today, log10).score < 57.4
  {
    assert log10(2.0) < log10(6.0);
    SmartBalanceScore(alg, Task(Some(2), "Task 2", today + 10, 5.0, 5, []), today, log10);
  }

  /** Due today, importance 8, one hour, dependency score 50 under smart_balance: three clauses. */
  lemma DueTodayClauses()
    ensures ReasonClauses("smart_balance", 0, 8, 1.0, 50.0) == [DueToday, HighImportance, QuickWin]
  {
    var strategy := "smart_balance";
    assert Blocks(strategy, 0, 8, 1.0, 50.0, 1) == [DueToday];
    assert Blocks(strategy, 0, 8, 1.0, 50.0, 2) == [DueToday, HighImportance];
    assert Blocks(strategy, 0, 8, 1.0, 50.0, 3) == [DueToday, HighImportance, QuickWin];
    assert Blocks(strategy, 0, 8, 1.0, 50.0, 4) == [DueToday, HighImportance, QuickWin];
    assert !WantsFast(strategy, 1.0) && !WantsImpact(strategy, 8) && !WantsDeadline(strategy, 0);
    assert Blocks(strategy, 0, 8, 1.0, 50.0, 5) == [DueToday, HighImportance, QuickWin];
  }

  /** Three parts joined: the separator between each neighbouring pair. */
  lemma JoinThree(a: string, b: string, c: string, sep: string)
    ensures Join([a, b, c], sep) == a + sep + b + sep + c
  {
    assert [a, b, c][1..] == [b, c] && [b, c][1..] == [c];
    assert Join([b, c], sep) == b + sep + c;
    assert Join([a, b, c], sep) == a + sep + (b + sep + c);
    assert a + sep + (b + sep + c) == a + sep + b + sep + c;
  }

  /** The clause texts joined with ", ". */
  lemma DueTodayJoin()
    ensures Join(Texts([DueToday, HighImportance, QuickWin]), ", ")
         == "due today" + ", " + "high importance" + ", " + "quick win"
  {
    assert Texts([DueToday, HighImportance, QuickWin]) == ["due today", "high importance", "quick win"];
    JoinThree("due today", "high importance", "quick win", ", ");
  }

  /** Due today, importance 8, one hour, dependency score 50: the reason's three clauses. */
  lemma DueTodayReason(strategy: string, clauses: seq<Clause>)
    requires strategy == "smart_balance"
    requires Explains(strategy, 0, 8, 1.0, 50.0, clauses)
    ensures RenderReason(clauses) == ReasonPrefix + ("due today" + ", " + "high importance" + ", " + "quick win")
  {
    ExplainsUnique(strategy, 0, 8, 1.0, 50.0, clauses);
    DueTodayClauses();
    assert clauses == [DueToday, HighImportance, QuickWin];
    DueTodayJoin();
  }

  /**
   * The suggestion test: with count 2 both tasks are suggested, the one due today first, and the
   * only reason it can be given is "Recommended because: due today, high importance, quick win".
   */
  lemma SuggestExample(alg: PriorityAlgorithm, today: int, log10: real -> real)
    requires alg.Valid() && alg.strategy == "smart_balance" && IsLog10(log10)
    ensures var first := Task(Some(1), "Task 1", today, 1.0, 8, []);
      var tasks := [first, Task(Some(2), "Task 2", today + 10, 5.0, 5, [])];
      var ranked := alg.RankedTasks(tasks, today, log10);
      && Acyclic(DependencyMapOf(tasks))
      && SliceEnd(|tasks|, 2) == 2
      && |ranked| == 2
      && ranked[0].task == first
      && forall clauses ::
           Explains(alg.strategy, DaysUntilDue(first, today), first.importance, first.hours,
                    ranked[0].breakdown.dependencies, clauses) ==>
           RenderReason(clauses) == ReasonPrefix + ("due today" + ", " + "high importance" + ", " + "quick win")
  {
    var first := Task(Some(1), "Task 1", today, 1.0, 8, []);
    var second := Task(Some(2), "Task 2", today + 10, 5.0, 5, []);
    NoDependenciesNoMap([first, second]);
    EmptyMapAcyclic();
    DueTodayTaskScore(alg, today, log10);
    TenDaysTaskScore(alg, today, log10);
    RankTwo(alg, first, second, today, log10);
    EmptyMapScore(first.id);
    assert alg.ScoreTask(first, map[], today, log10).breakdown.dependencies == 50.0;
    forall clauses | Explains(alg.strategy, 0, 8, 1.0, 50.0, clauses)
      ensures RenderReason(clauses) == ReasonPrefix + ("due today" + ", " + "high importance" + ", " + "quick win")
    {
      DueTodayReason(alg.strategy, clauses);
    }
  }
}
